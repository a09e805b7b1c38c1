/** Option, Result and the name search shared by every other module. */
module Prelude {

  datatype Option<+T> = None | Some(value: T)

  datatype Result<+T, +E> = Ok(value: T) | Err(error: E)

  /** The failures of an API-server call that the program tells apart. */
  datatype ApiError = NotFound | Forbidden | Conflict | OtherError

  /** The position of the first occurrence of `name` (Go: slices.IndexFunc on the Name field). */
  function IndexOfName(names: seq<string>, name: string): (r: Option<nat>)
    ensures r.None? <==> name !in names
    ensures r.Some? ==> r.value < |names| && names[r.value] == name && name !in names[..r.value]
  {
    if names == [] then None
    else if names[0] == name then Some(0)
    else
      match IndexOfName(names[1..], name)
      case None => None
      case Some(i) =>
        assert names[..i + 1] == [names[0]] + names[1..][..i];
        Some(i + 1)
  }

  /** First occurrences are unique, so a position that looks first is what the search returns. */
  lemma FirstOccurrence(names: seq<string>, name: string, i: nat)
    requires i < |names| && names[i] == name && name !in names[..i]
    ensures IndexOfName(names, name) == Some(i)
  {
    var r := IndexOfName(names, name).value;
    assert forall j | 0 <= j < i :: names[..i][j] == names[j];
    assert forall j | 0 <= j < r :: names[..r][j] == names[j];
  }

  /** Appending to a list does not move the first occurrence of a name it already had. */
  lemma SearchInPrefix(shorter: seq<string>, longer: seq<string>, name: string)
    requires shorter <= longer
    requires name in longer ==> name in shorter
    ensures IndexOfName(longer, name) == IndexOfName(shorter, name)
  {
    if name in shorter {
      var i := IndexOfName(shorter, name).value;
      assert longer[..i] == shorter[..i];
      FirstOccurrence(longer, name, i);
    }
  }
}
