/** What a deletion pass guarantees, under any mix of answers from the API server. */
module RestarterProperties {
  import opened Prelude
  import opened Features
  import opened Pods
  import opened PodWebhook
  import opened Restarter

  /** The namespace is scanned: it is listed and its pods may be listed. */
  predicate Scanned(ns: string, namespaces: seq<string>, answers: Answers) {
    ns in namespaces && answers.listPods(ns).None?
  }

  /** A pod the pass is after. */
  predicate Wanted(it: StoredPod, namespaces: seq<string>, desired: string, answers: Answers) {
    Stale(it.pod, desired) && Scanned(it.pod.namespace, namespaces, answers)
  }

  lemma {:induction false} SweepOutcome(items: seq<StoredPod>, desired: string, deletePod: nat -> Option<ApiError>)
    ensures var s := SweepPods(items, desired, deletePod);
            && (s.err.None? <==> forall it | it in items && Stale(it.pod, desired) :: Removed(deletePod(it.id)))
            && (s.err.None? ==> s.gone == set it | it in items && Stale(it.pod, desired) :: it.id)
            && (s.err.None? ==> (s.deleted <==> exists it :: it in items && Stale(it.pod, desired)))
            && (s.err.Some? ==> exists it :: it in items && Stale(it.pod, desired) && deletePod(it.id) == s.err)
  {
    if items != [] {
      SweepOutcome(items[1..], desired, deletePod);
      assert forall it :: it in items <==> it == items[0] || it in items[1..];
    }
  }

  /**
   * Whatever the answers, a pass removes only pods that were stale in a scanned namespace and whose delete was
   * answered as done; a true flag means at least one such pod is gone.
   */
  lemma {:induction false} PassIsSafe(namespaces: seq<string>, store: seq<StoredPod>, desired: string, answers: Answers)
    ensures var s := Pass(namespaces, store, desired, answers);
            && (forall id | id in s.gone :: Removed(answers.deletePod(id)) &&
                 exists it :: it in store && it.id == id && Wanted(it, namespaces, desired, answers))
            && (s.deleted ==> exists it :: it in store && it.id in s.gone)
  {
    if namespaces != [] {
      PassIsSafe(namespaces[1..], store, desired, answers);
      VisitIsSafe(namespaces[0], store, desired, answers);
      var here, rest := VisitNamespace(namespaces[0], store, desired, answers),
                        Pass(namespaces[1..], store, desired, answers);
      assert forall ns :: ns in namespaces <==> ns == namespaces[0] || ns in namespaces[1..];
      forall id | id in rest.gone
        ensures exists it :: it in store && it.id == id && Wanted(it, namespaces, desired, answers)
      {
        var it :| it in store && it.id == id && Wanted(it, namespaces[1..], desired, answers);
        assert Wanted(it, namespaces, desired, answers);
      }
    }
  }

  lemma VisitIsSafe(ns: string, store: seq<StoredPod>, desired: string, answers: Answers)
    ensures var s := VisitNamespace(ns, store, desired, answers);
            && (forall id | id in s.gone :: Removed(answers.deletePod(id)) &&
                 exists it :: it in store && it.id == id && Wanted(it, [ns], desired, answers))
            && (s.deleted ==> exists it :: it in store && it.id in s.gone)
  {
    var items := InNamespace(store, ns);
    InNamespaceMembers(store, ns);
    SweepStaysInside(items, desired, answers.deletePod);
    SweepOutcome(items, desired, answers.deletePod);
    var s := VisitNamespace(ns, store, desired, answers);
    forall id | id in s.gone
      ensures exists it :: it in store && it.id == id && Wanted(it, [ns], desired, answers)
    {
      var it :| it in items && it.id == id && Stale(it.pod, desired);
      assert Wanted(it, [ns], desired, answers);
    }
    if s.deleted {
      var it :| it in items && Stale(it.pod, desired);
      assert it in store && it.id in s.gone;
    }
  }

  /** No orphan, no ineligible pod and no pod with the wanted hash is ever removed. */
  lemma PassSparesTheRest(namespaces: seq<string>, store: seq<StoredPod>, desired: string, answers: Answers)
    requires DistinctIds(store)
    ensures var s := Pass(namespaces, store, desired, answers);
            forall it | it in store && !Wanted(it, namespaces, desired, answers) :: it in Without(store, s.gone)
  {
    var s := Pass(namespaces, store, desired, answers);
    PassIsSafe(namespaces, store, desired, answers);
    WithoutMembers(store, s.gone);
  }

  /** Without an error at the end and without a Forbidden delete, the visited pods are exactly the wanted ones. */
  lemma {:induction false} PassVisitsAll(namespaces: seq<string>, store: seq<StoredPod>, desired: string,
                                         answers: Answers)
    requires Pass(namespaces, store, desired, answers).err.None?
    requires forall it | it in store && Wanted(it, namespaces, desired, answers) ::
               answers.deletePod(it.id) != Some(Forbidden)
    ensures forall it | it in store && Wanted(it, namespaces, desired, answers) ::
              it.id in Pass(namespaces, store, desired, answers).gone
    ensures Pass(namespaces, store, desired, answers).deleted <==>
            exists it :: it in store && Wanted(it, namespaces, desired, answers)
  {
    if namespaces != [] {
      assert forall ns :: ns in namespaces <==> ns == namespaces[0] || ns in namespaces[1..];
      assert forall it :: Wanted(it, namespaces, desired, answers) <==>
                          Wanted(it, [namespaces[0]], desired, answers)
                          || Wanted(it, namespaces[1..], desired, answers);
      InNamespaceMembers(store, namespaces[0]);
      var items := InNamespace(store, namespaces[0]);
      SweepOutcome(items, desired, answers.deletePod);
      if answers.listPods(namespaces[0]).None? {
        assert forall it | it in items && Stale(it.pod, desired) :: Wanted(it, namespaces, desired, answers);
      }
      PassVisitsAll(namespaces[1..], store, desired, answers);
    }
  }

  /**
   * A pass that ends without error and met no Forbidden delete leaves exactly the pods it was not after, and its
   * flag says whether there was anything to remove.
   */
  lemma PassIsExact(namespaces: seq<string>, store: seq<StoredPod>, desired: string, answers: Answers)
    requires DistinctIds(store)
    requires Pass(namespaces, store, desired, answers).err.None?
    requires forall it | it in store && Wanted(it, namespaces, desired, answers) ::
               answers.deletePod(it.id) != Some(Forbidden)
    ensures var s := Pass(namespaces, store, desired, answers);
            && (forall it | it in store :: it in Without(store, s.gone) <==> !Wanted(it, namespaces, desired, answers))
            && (s.deleted <==> exists it :: it in store && Wanted(it, namespaces, desired, answers))
  {
    PassVisitsAll(namespaces, store, desired, answers);
    PassSparesTheRest(namespaces, store, desired, answers);
    WithoutMembers(store, Pass(namespaces, store, desired, answers).gone);
  }

  /** After such a pass another one with the same hash, whatever its answers, finds nothing to delete. */
  lemma SecondPassIsQuiet(namespaces: seq<string>, store: seq<StoredPod>, desired: string, first: Answers,
                          second: Answers)
    requires DistinctIds(store)
    requires Pass(namespaces, store, desired, first).err.None?
    requires forall it | it in store && Wanted(it, namespaces, desired, first) ::
               first.deletePod(it.id) != Some(Forbidden)
    requires forall ns | ns in namespaces :: first.listPods(ns).None?
    ensures var left := Without(store, Pass(namespaces, store, desired, first).gone);
            Pass(namespaces, left, desired, second).gone == {} && !Pass(namespaces, left, desired, second).deleted
  {
    var gone := Pass(namespaces, store, desired, first).gone;
    var left := Without(store, gone);
    PassIsExact(namespaces, store, desired, first);
    WithoutMembers(store, gone);
    PassIsSafe(namespaces, left, desired, second);
    assert forall it | it in left :: !Wanted(it, namespaces, desired, second);
  }

  // ----- the flag -----

  /** A namespace that makes the pass return true: something stale in it, and every delete there done. */
  ghost predicate Reporting(ns: string, store: seq<StoredPod>, desired: string, answers: Answers) {
    && answers.listPods(ns).None?
    && (exists it :: it in store && it.pod.namespace == ns && Stale(it.pod, desired))
    && (forall it | it in store && it.pod.namespace == ns && Stale(it.pod, desired) ::
          Removed(answers.deletePod(it.id)))
  }

  /** The exact meaning of the flag of a pass without error: deletions of a namespace in which one delete was
      Forbidden do not count, however many of them succeeded. */
  lemma {:induction false} FlagRule(namespaces: seq<string>, store: seq<StoredPod>, desired: string, answers: Answers)
    requires Pass(namespaces, store, desired, answers).err.None?
    ensures Pass(namespaces, store, desired, answers).deleted <==>
            exists ns :: ns in namespaces && Reporting(ns, store, desired, answers)
  {
    if namespaces != [] {
      var ns := namespaces[0];
      assert forall n :: n in namespaces <==> n == ns || n in namespaces[1..];
      InNamespaceMembers(store, ns);
      SweepOutcome(InNamespace(store, ns), desired, answers.deletePod);
      var here := VisitNamespace(ns, store, desired, answers);
      assert here.err.None? && here.deleted <==> Reporting(ns, store, desired, answers);
      FlagRule(namespaces[1..], store, desired, answers);
    }
  }

  /** The first stale pod of the list is deleted, whatever becomes of the others. */
  predicate FirstRemoved(items: seq<StoredPod>, desired: string, deletePod: nat -> Option<ApiError>) {
    exists i :: 0 <= i < |items| && Stale(items[i].pod, desired) && Removed(deletePod(items[i].id))
                && forall j | 0 <= j < i :: !Stale(items[j].pod, desired)
  }

  lemma {:induction false} SweepRemovesIff(items: seq<StoredPod>, desired: string, deletePod: nat -> Option<ApiError>)
    ensures SweepPods(items, desired, deletePod).gone != {} <==> FirstRemoved(items, desired, deletePod)
  {
    hide Stale;
    if items != [] {
      var rest := items[1..];
      SweepRemovesIff(rest, desired, deletePod);
      if !Stale(items[0].pod, desired) {
        if FirstRemoved(rest, desired, deletePod) {
          var i :| 0 <= i < |rest| && Stale(rest[i].pod, desired) && Removed(deletePod(rest[i].id))
            && forall j | 0 <= j < i :: !Stale(rest[j].pod, desired);
          assert items[i + 1] == rest[i];
          assert forall j | 0 < j < i + 1 :: items[j] == rest[j - 1];
        }
        if FirstRemoved(items, desired, deletePod) {
          var i :| 0 <= i < |items| && Stale(items[i].pod, desired) && Removed(deletePod(items[i].id))
            && forall j | 0 <= j < i :: !Stale(items[j].pod, desired);
          assert rest[i - 1] == items[i];
          assert forall j | 0 <= j < i - 1 :: rest[j] == items[j + 1];
        }
      } else if FirstRemoved(items, desired, deletePod) {
        assert Removed(deletePod(items[0].id));
      }
    }
  }

  /** A namespace that loses a pod to the pass: its list is answered and its first stale pod is deleted. */
  predicate Losing(ns: string, store: seq<StoredPod>, desired: string, answers: Answers) {
    answers.listPods(ns).None? && FirstRemoved(InNamespace(store, ns), desired, answers.deletePod)
  }

  /** A pass without error deletes something exactly when some listed namespace loses a pod. */
  lemma {:induction false} GoneRule(namespaces: seq<string>, store: seq<StoredPod>, desired: string, answers: Answers)
    requires Pass(namespaces, store, desired, answers).err.None?
    ensures Pass(namespaces, store, desired, answers).gone != {} <==>
            exists ns :: ns in namespaces && Losing(ns, store, desired, answers)
  {
    hide FirstRemoved, SweepPods, Stale;
    if namespaces != [] {
      var ns := namespaces[0];
      assert forall n :: n in namespaces <==> n == ns || n in namespaces[1..];
      SweepRemovesIff(InNamespace(store, ns), desired, answers.deletePod);
      assert VisitNamespace(ns, store, desired, answers).gone != {} <==> Losing(ns, store, desired, answers);
      GoneRule(namespaces[1..], store, desired, answers);
    }
  }

  /**
   * When the flag says what it is documented to say: a pass without error returns true exactly when it deleted a pod
   * if and only if, some namespace losing a pod, some namespace loses all its stale pods.
   */
  lemma FlagTruthfulIff(namespaces: seq<string>, store: seq<StoredPod>, desired: string, answers: Answers)
    requires Pass(namespaces, store, desired, answers).err.None?
    ensures var s := Pass(namespaces, store, desired, answers);
            (s.deleted <==> s.gone != {}) <==>
            ((exists ns :: ns in namespaces && Losing(ns, store, desired, answers)) ==>
             (exists ns :: ns in namespaces && Reporting(ns, store, desired, answers)))
  {
    hide Losing, Reporting, Pass;
    GoneRule(namespaces, store, desired, answers);
    FlagRule(namespaces, store, desired, answers);
    FlagNeverInvented(namespaces, store, desired, answers);
  }

  lemma FlagNeverInvented(namespaces: seq<string>, store: seq<StoredPod>, desired: string, answers: Answers)
    ensures Pass(namespaces, store, desired, answers).deleted ==> Pass(namespaces, store, desired, answers).gone != {}
  {
    hide Wanted;
    PassIsSafe(namespaces, store, desired, answers);
  }

  /** So a pass can delete pods, end without error and still report that it deleted none. */
  lemma FlagCanBeLost(desired: string)
    requires desired != ""
    ensures exists namespaces, store, answers ::
              var s := Pass(namespaces, store, desired, answers);
              s.err.None? && s.gone != {} && !s.deleted
  {
    var pod := PodData("ns", ["rs"], Some(map[CTB_HASH := ""]), [], [], [], []);
    var a, b := StoredPod(0, pod), StoredPod(1, pod);
    var store := [a, b];
    var answers := Answers(None, (ns: string) => None, (id: nat) => if id == 0 then None else Some(Forbidden));
    assert Stale(pod, desired);
    assert store[1..] == [b] && store[1..][1..] == [];
    assert InNamespace([b], "ns") == [b];
    assert InNamespace(store, "ns") == [a, b];
    assert SweepPods([b], desired, answers.deletePod) == Sweep({}, false, Some(Forbidden));
    assert SweepPods(store, desired, answers.deletePod).gone == {0};
    assert Pass([], store, desired, answers) == Sweep({}, false, None);
    assert ["ns"][1..] == [];
    assert Pass(["ns"], store, desired, answers).gone == {0};
  }
}
