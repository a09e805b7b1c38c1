/**
 * The whole outcome of a deletion pass, pod by pod: which pods go, which error ends it, and when its flag is true.
 * None of this refers to how the pass is computed.
 */
module PassOutcome {
  import opened Prelude
  import opened PodWebhook
  import opened Restarter
  import opened RestarterProperties

  /** The delete succeeded, or the pod was gone already. */
  predicate Done(answers: Answers, id: nat) {
    answers.deletePod(id) == None || answers.deletePod(id) == Some(NotFound)
  }

  /** Every stale pod among the first k of the list could be deleted. */
  predicate DoneBefore(items: seq<StoredPod>, k: nat, desired: string, answers: Answers) {
    forall j | 0 <= j < k && j < |items| && Stale(items[j].pod, desired) :: Done(answers, items[j].id)
  }

  /** The k-th pod of the list is stale and refused, with this answer, and none before it. */
  predicate RefusedAt(items: seq<StoredPod>, k: nat, desired: string, answers: Answers, e: ApiError) {
    && k < |items| && Stale(items[k].pod, desired)
    && !Done(answers, items[k].id) && answers.deletePod(items[k].id) == Some(e)
    && DoneBefore(items, k, desired, answers)
  }

  /** The namespace cannot be listed, or one of its deletes is the first to be refused. */
  ghost predicate FailsWith(ns: string, store: seq<StoredPod>, desired: string, answers: Answers, e: ApiError) {
    || answers.listPods(ns) == Some(e)
    || (answers.listPods(ns) == None && exists k: nat :: RefusedAt(InNamespace(store, ns), k, desired, answers, e))
  }

  /** The namespace ends the pass: it fails with anything but Forbidden. */
  ghost predicate Stops(ns: string, store: seq<StoredPod>, desired: string, answers: Answers) {
    exists e: ApiError :: e != Forbidden && FailsWith(ns, store, desired, answers, e)
  }

  /** The pass comes to its n-th namespace. */
  ghost predicate ComesTo(namespaces: seq<string>, n: nat, store: seq<StoredPod>, desired: string, answers: Answers) {
    n < |namespaces| && forall i | 0 <= i < n :: !Stops(namespaces[i], store, desired, answers)
  }

  /** The pod is the k-th of its namespace's list, stale, and deleted, and so were the stale ones before it. */
  predicate DeletedAt(items: seq<StoredPod>, k: nat, desired: string, answers: Answers, id: nat) {
    k < |items| && items[k].id == id && Stale(items[k].pod, desired) && DoneBefore(items, k + 1, desired, answers)
  }

  ghost predicate DeletedIn(ns: string, store: seq<StoredPod>, desired: string, answers: Answers, id: nat) {
    answers.listPods(ns) == None && exists k: nat :: DeletedAt(InNamespace(store, ns), k, desired, answers, id)
  }

  /** The namespace has a stale pod, and all its stale pods are deleted. */
  ghost predicate Cleared(ns: string, store: seq<StoredPod>, desired: string, answers: Answers) {
    && answers.listPods(ns) == None
    && (exists it :: it in store && it.pod.namespace == ns && Stale(it.pod, desired))
    && forall it | it in store && it.pod.namespace == ns && Stale(it.pod, desired) :: Done(answers, it.id)
  }

  // ===== one namespace =====

  lemma {:induction false} SweepError(items: seq<StoredPod>, desired: string, answers: Answers, e: ApiError)
    ensures SweepPods(items, desired, answers.deletePod).err == Some(e) <==>
            exists k: nat :: RefusedAt(items, k, desired, answers, e)
  {
    hide Stale;
    if items != [] {
      var rest := items[1..];
      SweepError(rest, desired, answers, e);
      var go := !Stale(items[0].pod, desired) || Done(answers, items[0].id);
      if go {
        forall k: nat
          ensures RefusedAt(rest, k, desired, answers, e) <==> RefusedAt(items, k + 1, desired, answers, e)
        {
          RefusedShift(items, k, desired, answers, e);
        }
        assert !RefusedAt(items, 0, desired, answers, e);
        if k: nat :| RefusedAt(items, k, desired, answers, e) {
          assert RefusedAt(rest, k - 1, desired, answers, e);
        }
      } else {
        assert forall k: nat | RefusedAt(items, k, desired, answers, e) :: k == 0;
        assert answers.deletePod(items[0].id) == Some(e) <==> RefusedAt(items, 0, desired, answers, e);
      }
    }
  }

  lemma DoneShift(items: seq<StoredPod>, k: nat, desired: string, answers: Answers)
    requires items != [] && (!Stale(items[0].pod, desired) || Done(answers, items[0].id))
    ensures DoneBefore(items[1..], k, desired, answers) <==> DoneBefore(items, k + 1, desired, answers)
  {
    hide Stale, Done;
    var rest := items[1..];
    assert forall j | 0 < j < |items| :: items[j] == rest[j - 1];
    assert forall j | 0 <= j < |rest| :: rest[j] == items[j + 1];
  }

  lemma RefusedShift(items: seq<StoredPod>, k: nat, desired: string, answers: Answers, e: ApiError)
    requires items != [] && (!Stale(items[0].pod, desired) || Done(answers, items[0].id))
    ensures RefusedAt(items[1..], k, desired, answers, e) <==> RefusedAt(items, k + 1, desired, answers, e)
  {
    hide Stale, Done, DoneBefore;
    DoneShift(items, k, desired, answers);
  }

  lemma DeletedShift(items: seq<StoredPod>, k: nat, desired: string, answers: Answers, id: nat)
    requires items != [] && (!Stale(items[0].pod, desired) || Done(answers, items[0].id))
    ensures DeletedAt(items[1..], k, desired, answers, id) <==> DeletedAt(items, k + 1, desired, answers, id)
  {
    hide Stale, Done, DoneBefore;
    DoneShift(items, k + 1, desired, answers);
  }

  lemma {:induction false} SweepGone(items: seq<StoredPod>, desired: string, answers: Answers, id: nat)
    ensures id in SweepPods(items, desired, answers.deletePod).gone <==>
            exists k: nat :: DeletedAt(items, k, desired, answers, id)
  {
    hide Stale;
    if items != [] {
      var rest := items[1..];
      SweepGone(rest, desired, answers, id);
      if !Stale(items[0].pod, desired) || Done(answers, items[0].id) {
        forall k: nat
          ensures DeletedAt(rest, k, desired, answers, id) <==> DeletedAt(items, k + 1, desired, answers, id)
        {
          DeletedShift(items, k, desired, answers, id);
        }
        assert DeletedAt(items, 0, desired, answers, id) <==> Stale(items[0].pod, desired) && items[0].id == id;
        if k: nat :| k > 0 && DeletedAt(items, k, desired, answers, id) {
          assert DeletedAt(rest, k - 1, desired, answers, id);
        }
      } else {
        forall k: nat
          ensures !DeletedAt(items, k, desired, answers, id)
        {
        }
      }
    }
  }

  /** One namespace: its error, its deletions, and its flag. */
  lemma VisitOutcome(ns: string, store: seq<StoredPod>, desired: string, answers: Answers)
    ensures var s := VisitNamespace(ns, store, desired, answers);
            && (forall e: ApiError :: s.err == Some(e) <==> FailsWith(ns, store, desired, answers, e))
            && (forall id :: id in s.gone <==> DeletedIn(ns, store, desired, answers, id))
            && (s.err.None? && s.deleted <==> Cleared(ns, store, desired, answers))
  {
    hide Stale, DeletedAt, RefusedAt, SweepPods;
    var items := InNamespace(store, ns);
    forall e: ApiError
      ensures VisitNamespace(ns, store, desired, answers).err == Some(e) <==> FailsWith(ns, store, desired, answers, e)
    {
      SweepError(items, desired, answers, e);
    }
    forall id
      ensures id in VisitNamespace(ns, store, desired, answers).gone <==> DeletedIn(ns, store, desired, answers, id)
    {
      SweepGone(items, desired, answers, id);
    }
    InNamespaceMembers(store, ns);
    SweepOutcome(items, desired, answers.deletePod);
  }

  // ===== the whole pass =====

  /** What ends the pass, if anything: the first namespace that stops it. */
  ghost predicate FailsAt(namespaces: seq<string>, n: nat, store: seq<StoredPod>, desired: string, answers: Answers,
                           e: ApiError) {
    && ComesTo(namespaces, n, store, desired, answers)
    && e != Forbidden && FailsWith(namespaces[n], store, desired, answers, e)
  }

  /** The pass comes to the pod's namespace and deletes the pod there. */
  ghost predicate DeletesAt(namespaces: seq<string>, n: nat, store: seq<StoredPod>, desired: string, answers: Answers,
                            id: nat) {
    ComesTo(namespaces, n, store, desired, answers) && DeletedIn(namespaces[n], store, desired, answers, id)
  }

  lemma ComesShift(namespaces: seq<string>, n: nat, store: seq<StoredPod>, desired: string, answers: Answers)
    requires namespaces != [] && !Stops(namespaces[0], store, desired, answers)
    ensures ComesTo(namespaces[1..], n, store, desired, answers) <==>
            ComesTo(namespaces, n + 1, store, desired, answers)
  {
    hide Stops;
    var rest := namespaces[1..];
    assert forall j | 0 < j < |namespaces| :: namespaces[j] == rest[j - 1];
    assert forall j | 0 <= j < |rest| :: rest[j] == namespaces[j + 1];
  }

  /** The first namespace stops the pass exactly when visiting it gives an error other than Forbidden. */
  lemma StopsIff(ns: string, store: seq<StoredPod>, desired: string, answers: Answers)
    ensures var err := VisitNamespace(ns, store, desired, answers).err;
            Stops(ns, store, desired, answers) <==> err.Some? && err.value != Forbidden
  {
    hide FailsWith, DeletedIn, Cleared, VisitNamespace;
    VisitOutcome(ns, store, desired, answers);
    var err := VisitNamespace(ns, store, desired, answers).err;
    if err.Some? {
      assert FailsWith(ns, store, desired, answers, err.value);
    }
  }

  lemma {:induction false} PassError(namespaces: seq<string>, store: seq<StoredPod>, desired: string, answers: Answers,
                                     e: ApiError)
    ensures Pass(namespaces, store, desired, answers).err == Some(e) <==>
            exists n: nat :: FailsAt(namespaces, n, store, desired, answers, e)
  {
    hide FailsWith, DeletedIn, Cleared, VisitNamespace, Stops, ComesTo;
    if namespaces == [] {
      assert forall n: nat :: !ComesTo(namespaces, n, store, desired, answers) by {
        NowhereToCome(store, desired, answers);
      }
    } else {
      var rest := namespaces[1..];
      PassError(rest, store, desired, answers, e);
      VisitOutcome(namespaces[0], store, desired, answers);
      StopsIff(namespaces[0], store, desired, answers);
      ComesFirst(namespaces, store, desired, answers);
      if !Stops(namespaces[0], store, desired, answers) {
        forall n: nat
          ensures FailsAt(rest, n, store, desired, answers, e) <==>
                  FailsAt(namespaces, n + 1, store, desired, answers, e)
        {
          ComesShift(namespaces, n, store, desired, answers);
          ComesInside(rest, n, store, desired, answers);
        }
        assert FailsAt(namespaces, 0, store, desired, answers, e) ==> false;
        if n: nat :| n > 0 && FailsAt(namespaces, n, store, desired, answers, e) {
          assert FailsAt(rest, n - 1, store, desired, answers, e);
        }
      } else {
        assert FailsAt(namespaces, 0, store, desired, answers, e) <==>
               e != Forbidden && FailsWith(namespaces[0], store, desired, answers, e);
      }
    }
  }

  lemma NowhereToCome(store: seq<StoredPod>, desired: string, answers: Answers)
    ensures forall n: nat :: !ComesTo([], n, store, desired, answers)
  {
  }

  lemma ComesInside(namespaces: seq<string>, n: nat, store: seq<StoredPod>, desired: string, answers: Answers)
    ensures ComesTo(namespaces, n, store, desired, answers) ==> n < |namespaces|
  {
  }

  /** The pass comes to its first namespace, and beyond it only if that does not stop it. */
  lemma ComesFirst(namespaces: seq<string>, store: seq<StoredPod>, desired: string, answers: Answers)
    requires namespaces != []
    ensures ComesTo(namespaces, 0, store, desired, answers)
    ensures Stops(namespaces[0], store, desired, answers) ==>
              forall n: nat | ComesTo(namespaces, n, store, desired, answers) :: n == 0
  {
  }

  lemma {:induction false} PassGone(namespaces: seq<string>, store: seq<StoredPod>, desired: string, answers: Answers,
                                    id: nat)
    ensures id in Pass(namespaces, store, desired, answers).gone <==>
            exists n: nat :: DeletesAt(namespaces, n, store, desired, answers, id)
  {
    hide FailsWith, DeletedIn, Cleared, VisitNamespace, Stops, ComesTo;
    if namespaces == [] {
      NowhereToCome(store, desired, answers);
    } else {
      var rest := namespaces[1..];
      PassGone(rest, store, desired, answers, id);
      VisitOutcome(namespaces[0], store, desired, answers);
      StopsIff(namespaces[0], store, desired, answers);
      ComesFirst(namespaces, store, desired, answers);
      assert DeletesAt(namespaces, 0, store, desired, answers, id) <==>
             DeletedIn(namespaces[0], store, desired, answers, id);
      if !Stops(namespaces[0], store, desired, answers) {
        forall n: nat
          ensures DeletesAt(rest, n, store, desired, answers, id) <==>
                  DeletesAt(namespaces, n + 1, store, desired, answers, id)
        {
          ComesShift(namespaces, n, store, desired, answers);
          ComesInside(rest, n, store, desired, answers);
        }
        if n: nat :| n > 0 && DeletesAt(namespaces, n, store, desired, answers, id) {
          assert DeletesAt(rest, n - 1, store, desired, answers, id);
        }
      }
    }
  }

  lemma {:induction false} PassFlag(namespaces: seq<string>, store: seq<StoredPod>, desired: string, answers: Answers)
    requires Pass(namespaces, store, desired, answers).err.None?
    ensures Pass(namespaces, store, desired, answers).deleted <==>
            exists ns :: ns in namespaces && Cleared(ns, store, desired, answers)
  {
    hide FailsWith, DeletedIn, Cleared, VisitNamespace;
    if namespaces != [] {
      PassFlag(namespaces[1..], store, desired, answers);
      VisitOutcome(namespaces[0], store, desired, answers);
      assert forall ns :: ns in namespaces <==> ns == namespaces[0] || ns in namespaces[1..];
    }
  }

  /**
   * The whole outcome. A failed list of namespaces gives that error and removes nothing. Otherwise the pass ends with
   * the failure of the first namespace that fails other than Forbidden, deletes exactly the stale pods it comes to, in
   * each namespace up to the first refused delete, and returns true exactly when it ends well and clears a namespace.
   */
  lemma WholePass(namespaces: seq<string>, store: seq<StoredPod>, desired: string, answers: Answers)
    ensures var s := FullPass(namespaces, store, desired, answers);
            answers.listNamespaces.Some? ==> s.err == answers.listNamespaces && s.gone == {} && !s.deleted
    ensures answers.listNamespaces.None? ==>
              var s := FullPass(namespaces, store, desired, answers);
              && (forall e: ApiError :: s.err == Some(e) <==>
                    exists n: nat :: FailsAt(namespaces, n, store, desired, answers, e))
              && (forall id :: id in s.gone <==> exists n: nat :: DeletesAt(namespaces, n, store, desired, answers, id))
              && (s.deleted <==> s.err.None? && exists ns :: ns in namespaces && Cleared(ns, store, desired, answers))
  {
    hide FailsAt, DeletesAt, Cleared, Pass;
    if answers.listNamespaces.None? {
      var s := FullPass(namespaces, store, desired, answers);
      forall e: ApiError
        ensures s.err == Some(e) <==> exists n: nat :: FailsAt(namespaces, n, store, desired, answers, e)
      {
        PassError(namespaces, store, desired, answers, e);
      }
      forall id
        ensures id in s.gone <==> exists n: nat :: DeletesAt(namespaces, n, store, desired, answers, id)
      {
        PassGone(namespaces, store, desired, answers, id);
      }
      if s.err.None? {
        PassFlag(namespaces, store, desired, answers);
      }
    }
  }

  /** The laws of a pass, for what the program runs: safety, exactness, and the two sides of its flag. */
  lemma FullPassLaws(namespaces: seq<string>, store: seq<StoredPod>, desired: string, answers: Answers)
    requires DistinctIds(store)
    ensures var s := FullPass(namespaces, store, desired, answers);
            && (forall it | it in store && !Wanted(it, namespaces, desired, answers) :: it in Without(store, s.gone))
            && (s.deleted ==> exists it :: it in store && it.id in s.gone)
    ensures var s := FullPass(namespaces, store, desired, answers);
            s.err.None? ==>
              && (s.deleted <==> exists ns :: ns in namespaces && Cleared(ns, store, desired, answers))
              && (s.gone != {} <==> exists ns :: ns in namespaces && Losing(ns, store, desired, answers))
    ensures var s := FullPass(namespaces, store, desired, answers);
            && s.err.None?
            && (forall it | it in store && Wanted(it, namespaces, desired, answers) ::
                  answers.deletePod(it.id) != Some(Forbidden)) ==>
              && (forall it | it in store ::
                    it in Without(store, s.gone) <==> !Wanted(it, namespaces, desired, answers))
              && (s.deleted <==> exists it :: it in store && Wanted(it, namespaces, desired, answers))
  {
    hide Wanted, Losing, Cleared, Pass, DeletesAt, FailsAt;
    WholePass(namespaces, store, desired, answers);
    WithoutNone(store);
    if answers.listNamespaces.None? {
      PassSparesTheRest(namespaces, store, desired, answers);
      PassIsSafe(namespaces, store, desired, answers);
      if Pass(namespaces, store, desired, answers).err.None? {
        GoneRule(namespaces, store, desired, answers);
        if forall it | it in store && Wanted(it, namespaces, desired, answers) ::
             answers.deletePod(it.id) != Some(Forbidden) {
          PassIsExact(namespaces, store, desired, answers);
        }
      }
    }
  }
}
