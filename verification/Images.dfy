/** The image-registry rewrite (internal/webhook/k8s/utilz.go) and what it does to the text of an image. */
module Images {
  /** strings.Split(s, "/"): the pieces between the slashes, one more of them than slashes. */
  function Split(s: string): (pieces: seq<string>)
    ensures |pieces| > 0
  {
    if s == "" then [""]
    else
      var rest := Split(s[1..]);
      if s[0] == '/' then [""] + rest else [[s[0]] + rest[0]] + rest[1..]
  }

  /** strings.Join(pieces, "/"). */
  function Join(pieces: seq<string>): string {
    if pieces == [] then ""
    else if |pieces| == 1 then pieces[0]
    else pieces[0] + "/" + Join(pieces[1..])
  }

  function FixRegistry(registry: string, overrides: map<string, string>): string {
    if registry in overrides then overrides[registry] else registry
  }

  /** A first segment names a registry only when it holds a dot or a colon. */
  predicate RegistryShaped(segment: string) {
    '.' in segment || ':' in segment
  }

  function AlterPodImageRegistry(image: string, overrides: map<string, string>): string {
    var data := Split(image);
    if |data| > 1 && RegistryShaped(data[0]) then
      FixRegistry(data[0], overrides) + "/" + Join(data[1..])
    else image
  }

  /** The text before the first slash; the whole text when there is none. */
  function FirstSegment(s: string): (head: string)
    ensures head <= s && '/' !in head
    ensures |head| < |s| ==> s[|head|] == '/'
    ensures head == s <==> '/' !in s
  {
    if s == "" || s[0] == '/' then ""
    else
      var tail := FirstSegment(s[1..]);
      assert s == [s[0]] + s[1..];
      [s[0]] + tail
  }

  predicate HasRegistry(image: string) {
    '/' in image && RegistryShaped(FirstSegment(image))
  }

  lemma {:induction false} SplitHead(s: string)
    ensures Split(s)[0] == FirstSegment(s)
    ensures |Split(s)| > 1 <==> '/' in s
  {
    if s != "" {
      SplitHead(s[1..]);
      assert s == [s[0]] + s[1..];
    }
  }

  /** No piece holds a slash. */
  lemma {:induction false} SplitPieces(s: string)
    ensures forall piece | piece in Split(s) :: '/' !in piece
  {
    if s != "" {
      SplitPieces(s[1..]);
      var rest := Split(s[1..]);
      assert rest[0] in rest;
      assert forall piece | piece in rest[1..] :: piece in rest;
    }
  }

  /** Joining the pieces of a text gives the text back. */
  lemma {:induction false} JoinSplit(s: string)
    ensures Join(Split(s)) == s
  {
    if s != "" {
      JoinSplit(s[1..]);
      var rest := Split(s[1..]);
      assert s == [s[0]] + s[1..];
      if s[0] == '/' {
        assert ([""] + rest)[1..] == rest;
      } else if |rest| > 1 {
        assert Split(s)[1..] == rest[1..];
      }
    }
  }

  lemma {:induction false} FirstSegmentOf(head: string, rest: string)
    requires '/' !in head
    ensures FirstSegment(head + "/" + rest) == head
  {
    if head != "" {
      FirstSegmentOf(head[1..], rest);
      assert (head + "/" + rest)[1..] == head[1..] + "/" + rest;
    }
  }

  /**
   * The rewrite in terms of the text alone: when the text before the first slash holds a dot or a colon and is
   * overridden, exactly it is replaced, every character from the slash on stays, and no other image changes.
   */
  lemma RewriteReplacesRegistryOnly(image: string, overrides: map<string, string>)
    ensures AlterPodImageRegistry(image, overrides) ==
            var registry := FirstSegment(image);
            if '/' in image && ('.' in registry || ':' in registry) && registry in overrides
            then overrides[registry] + image[|registry|..]
            else image
  {
    hide Split, FirstSegment;
    JoinSplit(image);
    SplitHead(image);
    var data := Split(image);
    if HasRegistry(image) {
      assert Join(data) == data[0] + "/" + Join(data[1..]) == image;
      assert image[|data[0]|..] == "/" + Join(data[1..]);
      assert FixRegistry(data[0], overrides) + "/" + Join(data[1..])
          == FixRegistry(data[0], overrides) + ("/" + Join(data[1..]));
    }
  }

  // ----- idempotence -----

  predicate UsableKey(key: string) {
    '/' !in key && RegistryShaped(key)
  }

  /** No usable override leads to a registry that is itself sent somewhere else. */
  ghost predicate StableOverrides(overrides: map<string, string>) {
    forall key | key in overrides && UsableKey(key) ::
      var landing := FirstSegment(overrides[key]);
      RegistryShaped(landing) && landing in overrides ==> overrides[landing] == landing
  }

  lemma RewriteIdempotent(image: string, overrides: map<string, string>)
    requires StableOverrides(overrides)
    ensures AlterPodImageRegistry(AlterPodImageRegistry(image, overrides), overrides)
         == AlterPodImageRegistry(image, overrides)
  {
    var registry := FirstSegment(image);
    if HasRegistry(image) && registry in overrides {
      var rest := image[|registry| + 1..];
      assert image == registry + "/" + rest;
      RewriteHead(registry, rest, overrides);
      LandingSegment(overrides[registry], rest);
      UnmovedImage(overrides[registry] + "/" + rest, overrides);
    } else {
      RewriteReplacesRegistryOnly(image, overrides);
    }
  }

  lemma UnmovedImage(image: string, overrides: map<string, string>)
    requires HasRegistry(image) && FirstSegment(image) in overrides ==>
               overrides[FirstSegment(image)] == FirstSegment(image)
    ensures AlterPodImageRegistry(image, overrides) == image
  {
    RewriteReplacesRegistryOnly(image, overrides);
    var registry := FirstSegment(image);
    assert image == registry + image[|registry|..];
  }

  lemma {:induction false} LandingSegment(target: string, rest: string)
    ensures FirstSegment(target + "/" + rest) == FirstSegment(target)
    ensures '/' in target + "/" + rest
  {
    assert (target + "/" + rest)[|target|] == '/';
    if target != "" {
      assert (target + "/" + rest)[1..] == target[1..] + "/" + rest;
      LandingSegment(target[1..], rest);
    }
  }

  /** Rewriting every image twice is rewriting it once exactly for stable overrides. */
  lemma RewriteIdempotentIff(overrides: map<string, string>)
    ensures (forall image :: AlterPodImageRegistry(AlterPodImageRegistry(image, overrides), overrides)
                          == AlterPodImageRegistry(image, overrides))
            <==> StableOverrides(overrides)
  {
    if StableOverrides(overrides) {
      forall image
        ensures AlterPodImageRegistry(AlterPodImageRegistry(image, overrides), overrides)
             == AlterPodImageRegistry(image, overrides)
      {
        RewriteIdempotent(image, overrides);
      }
    } else {
      var _ := UnstableImage(overrides);
    }
  }

  /** Unstable overrides have an image on which the second rewrite differs from the first. */
  lemma UnstableImage(overrides: map<string, string>) returns (image: string)
    requires !StableOverrides(overrides)
    ensures AlterPodImageRegistry(AlterPodImageRegistry(image, overrides), overrides)
         != AlterPodImageRegistry(image, overrides)
  {
    var key :| key in overrides && UsableKey(key)
      && var l := FirstSegment(overrides[key]);
         RegistryShaped(l) && l in overrides && overrides[l] != l;
    image := key + "/";
    assert image == key + "/" + "";
    FirstSegmentOf(key, "");
    RewriteReplacesRegistryOnly(image, overrides);
    assert image[|key|..] == "/";
    var once := AlterPodImageRegistry(image, overrides);
    assert once == overrides[key] + "/" + "";
    LandingSegment(overrides[key], "");
    RewriteReplacesRegistryOnly(once, overrides);
    var landing := FirstSegment(overrides[key]);
    var twice := AlterPodImageRegistry(once, overrides);
    assert twice == overrides[landing] + once[|landing|..];
  }

  // ----- undoing a rewrite -----

  /** inverse sends every target back to its only key. */
  ghost predicate InverseOf(inverse: map<string, string>, overrides: map<string, string>) {
    && inverse.Keys == overrides.Values
    && forall key | key in overrides :: inverse[overrides[key]] == key
  }

  /**
   * For an invertible override map with usable keys and targets, rewriting with the inverse gives the
   * image back exactly unless its registry is a target that is not also a key.
   */
  lemma RewriteUndoneIff(image: string, overrides: map<string, string>, inverse: map<string, string>)
    requires InverseOf(inverse, overrides)
    requires forall key | key in overrides :: UsableKey(key) && UsableKey(overrides[key])
    ensures AlterPodImageRegistry(AlterPodImageRegistry(image, overrides), inverse) == image
            <==> !(HasRegistry(image) && FirstSegment(image) in overrides.Values && FirstSegment(image) !in overrides)
  {
    var registry := FirstSegment(image);
    if HasRegistry(image) {
      var rest := image[|registry| + 1..];
      assert image == registry + "/" + rest;
      RewriteHead(registry, rest, overrides);
      if registry in overrides {
        RewriteHead(overrides[registry], rest, inverse);
      } else {
        RewriteHead(registry, rest, inverse);
        if registry in overrides.Values {
          var key :| key in overrides && overrides[key] == registry;
          FirstSegmentOf(key, rest);
        }
      }
    } else {
      RewriteReplacesRegistryOnly(image, overrides);
      RewriteReplacesRegistryOnly(image, inverse);
    }
  }

  lemma RewriteHead(head: string, rest: string, overrides: map<string, string>)
    requires UsableKey(head)
    ensures AlterPodImageRegistry(head + "/" + rest, overrides) == FixRegistry(head, overrides) + "/" + rest
  {
    hide Split, Join, AlterPodImageRegistry, FirstSegment;
    var image := head + "/" + rest;
    FirstSegmentOf(head, rest);
    assert image[|head|] == '/';
    RewriteReplacesRegistryOnly(image, overrides);
    assert image[|head|..] == "/" + rest;
    assert FixRegistry(head, overrides) + "/" + rest == FixRegistry(head, overrides) + ("/" + rest);
  }
}
