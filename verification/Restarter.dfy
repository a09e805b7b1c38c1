/** The deletion pass over stale pods (internal/ctb/restarter.go). */
module Restarter {
  import opened Prelude
  import opened Features
  import opened Pods
  import opened PodWebhook

  /** A pod in the cluster; its id is never used for another pod. */
  datatype StoredPod = StoredPod(id: nat, pod: PodData)

  /** How the API server answers each call of one pass; None is success. */
  datatype Answers = Answers(
    listNamespaces: Option<ApiError>,
    listPods: string -> Option<ApiError>,
    deletePod: nat -> Option<ApiError>)

  // ===== what a pass does, on values =====

  function Without(store: seq<StoredPod>, gone: set<nat>): seq<StoredPod> {
    if store == [] then []
    else (if store[0].id in gone then [] else [store[0]]) + Without(store[1..], gone)
  }

  function InNamespace(store: seq<StoredPod>, ns: string): seq<StoredPod> {
    if store == [] then []
    else (if store[0].pod.namespace == ns then [store[0]] else []) + InNamespace(store[1..], ns)
  }

  /** Outcome of a pass or of a part of it: the pods that are gone, the flag it returns, the error that ended it. */
  datatype Sweep = Sweep(gone: set<nat>, deleted: bool, err: Option<ApiError>)

  /** First s, which ended well, then t; an error takes the flag with it. */
  function Then(s: Sweep, t: Sweep): Sweep {
    Sweep(s.gone + t.gone, t.err.None? && (s.deleted || t.deleted), t.err)
  }

  /** A delete answered NotFound counts as done: the pod is gone. */
  predicate Removed(answer: Option<ApiError>) {
    answer.None? || answer == Some(NotFound)
  }

  function SweepPods(items: seq<StoredPod>, desired: string, deletePod: nat -> Option<ApiError>): (s: Sweep)
    ensures s.err.Some? ==> !s.deleted
  {
    if items == [] then Sweep({}, false, None)
    else if !Stale(items[0].pod, desired) then SweepPods(items[1..], desired, deletePod)
    else if Removed(deletePod(items[0].id)) then
      Then(Sweep({items[0].id}, true, None), SweepPods(items[1..], desired, deletePod))
    else Sweep({}, false, deletePod(items[0].id))
  }

  function VisitNamespace(ns: string, store: seq<StoredPod>, desired: string, answers: Answers): (s: Sweep)
    ensures s.err.Some? ==> !s.deleted
  {
    if answers.listPods(ns).Some? then Sweep({}, false, answers.listPods(ns))
    else SweepPods(InNamespace(store, ns), desired, answers.deletePod)
  }

  /** A Forbidden, whether from the list or from a delete, drops the namespace, its flag included. */
  function Pass(namespaces: seq<string>, store: seq<StoredPod>, desired: string, answers: Answers): (s: Sweep)
    ensures s.err.Some? ==> !s.deleted
  {
    if namespaces == [] then Sweep({}, false, None)
    else
      var here := VisitNamespace(namespaces[0], store, desired, answers);
      var rest := Pass(namespaces[1..], store, desired, answers);
      match here.err
      case None => Then(here, rest)
      case Some(Forbidden) => Then(Sweep(here.gone, false, None), rest)
      case Some(e) => here
  }

  function FullPass(namespaces: seq<string>, store: seq<StoredPod>, desired: string, answers: Answers): Sweep {
    if answers.listNamespaces.Some? then Sweep({}, false, answers.listNamespaces)
    else Pass(namespaces, store, desired, answers)
  }

  // ===== the code =====

  class Cluster {
    var namespaces: seq<string>
    var store: seq<StoredPod>

    /** Names are unique, as the API server keeps them. */
    predicate Valid()
      reads this
    {
      && (forall i, j | 0 <= i < j < |namespaces| :: namespaces[i] != namespaces[j])
      && DistinctIds(store)
    }

    method ListPods(ns: string, answers: Answers) returns (r: Result<seq<StoredPod>, ApiError>)
      ensures r == if answers.listPods(ns).Some? then Err(answers.listPods(ns).value) else Ok(InNamespace(store, ns))
    {
      if answers.listPods(ns).Some? {
        return Err(answers.listPods(ns).value);
      }
      return Ok(InNamespace(store, ns));
    }

    /** With NotFound another client was first: the pod is gone all the same. */
    method Delete(id: nat, answers: Answers) returns (err: Option<ApiError>)
      modifies this`store
      ensures err == answers.deletePod(id)
      ensures store == if Removed(err) then Without(old(store), {id}) else old(store)
    {
      err := answers.deletePod(id);
      if Removed(err) {
        store := Without(store, {id});
      }
    }

    method RestartStalePodsInNamespace(ns: string, desired: string, answers: Answers)
      returns (deleted: bool, err: Option<ApiError>)
      modifies this`store
      ensures var s := VisitNamespace(ns, old(store), desired, answers);
              deleted == s.deleted && err == s.err && store == Without(old(store), s.gone)
    {
      WithoutNone(store);
      var listed := ListPods(ns, answers);
      if listed.Err? {
        return false, Some(listed.error);
      }
      var items := listed.value;
      var anyDeleted := false;
      ghost var gone: set<nat> := {};
      for i := 0 to |items|
        invariant store == Without(old(store), gone)
        invariant SweepPods(items, desired, answers.deletePod) ==
                  Then(Sweep(gone, anyDeleted, None), SweepPods(items[i..], desired, answers.deletePod))
      {
        var item := items[i];
        assert items[i..][1..] == items[i + 1..];
        if !CTBRestartEnabled(item.pod.annotations) {
          continue;
        }
        if |item.pod.owners| == 0 {
          continue;
        }
        if Lookup(item.pod.annotations, CTB_HASH) == desired {
          continue;
        }
        var answer := Delete(item.id, answers);
        if answer.Some? && answer != Some(NotFound) {
          return false, answer;
        }
        WithoutTwice(old(store), gone, {item.id});
        gone := gone + {item.id};
        anyDeleted := true;
      }
      return anyDeleted, None;
    }

    method RestartStalePods(desired: string, answers: Answers) returns (r: Result<bool, ApiError>)
      requires Valid()
      modifies this`store
      ensures Valid()
      ensures var s := FullPass(namespaces, old(store), desired, answers);
              && store == Without(old(store), s.gone)
              && r == if s.err.Some? then Err(s.err.value) else Ok(s.deleted)
    {
      WithoutNone(store);
      if answers.listNamespaces.Some? {
        return Err(answers.listNamespaces.value);
      }
      var anyDeleted := false;
      ghost var gone: set<nat> := {};
      for i := 0 to |namespaces|
        invariant store == Without(old(store), gone)
        invariant forall it | it in old(store) && it.id in gone :: it.pod.namespace in namespaces[..i]
        invariant Pass(namespaces, old(store), desired, answers) ==
                  Then(Sweep(gone, anyDeleted, None), Pass(namespaces[i..], old(store), desired, answers))
      {
        var ns := namespaces[i];
        assert namespaces[i..][1..] == namespaces[i + 1..];
        ghost var here := VisitNamespace(ns, old(store), desired, answers);
        VisitAfterOthers(old(store), gone, ns, desired, answers);
        var deleted, err := RestartStalePodsInNamespace(ns, desired, answers);
        gone := gone + here.gone;
        if err.Some? {
          if err.value == Forbidden {
            continue;
          }
          WithoutDistinct(old(store), gone);
          return Err(err.value);
        }
        if deleted {
          anyDeleted := true;
        }
      }
      WithoutDistinct(old(store), gone);
      return Ok(anyDeleted);
    }
  }

  // ===== facts about stores =====

  predicate DistinctIds(store: seq<StoredPod>) {
    forall i, j | 0 <= i < j < |store| :: store[i].id != store[j].id
  }

  lemma {:induction false} WithoutNone(store: seq<StoredPod>)
    ensures Without(store, {}) == store
  {
    if store != [] {
      WithoutNone(store[1..]);
    }
  }

  lemma {:induction false} WithoutMembers(store: seq<StoredPod>, gone: set<nat>)
    ensures forall it :: it in Without(store, gone) <==> it in store && it.id !in gone
  {
    if store != [] {
      WithoutMembers(store[1..], gone);
      assert forall it :: it in store <==> it == store[0] || it in store[1..];
    }
  }

  lemma {:induction false} InNamespaceMembers(store: seq<StoredPod>, ns: string)
    ensures forall it :: it in InNamespace(store, ns) <==> it in store && it.pod.namespace == ns
  {
    if store != [] {
      InNamespaceMembers(store[1..], ns);
      assert forall it :: it in store <==> it == store[0] || it in store[1..];
    }
  }

  lemma {:induction false} WithoutTwice(store: seq<StoredPod>, a: set<nat>, b: set<nat>)
    ensures Without(Without(store, a), b) == Without(store, a + b)
  {
    if store != [] {
      WithoutTwice(store[1..], a, b);
      var once, rest := Without(store, a), Without(store[1..], a);
      if store[0].id in a {
        assert once == rest;
        assert Without(once, b) == [] + Without(rest, b);
      } else {
        assert once == [store[0]] + rest && once[1..] == rest;
      }
    }
  }

  lemma {:induction false} WithoutDistinct(store: seq<StoredPod>, gone: set<nat>)
    requires DistinctIds(store)
    ensures DistinctIds(Without(store, gone))
  {
    if store != [] {
      WithoutDistinct(store[1..], gone);
      WithoutMembers(store[1..], gone);
      var rest := Without(store[1..], gone);
      forall j | 0 <= j < |rest|
        ensures rest[j].id != store[0].id
      {
        assert rest[j] in store[1..];
      }
    }
  }

  /** Removing pods of other namespaces leaves a namespace's list alone. */
  lemma {:induction false} OtherNamespace(store: seq<StoredPod>, gone: set<nat>, ns: string)
    requires forall it | it in store && it.id in gone :: it.pod.namespace != ns
    ensures InNamespace(Without(store, gone), ns) == InNamespace(store, ns)
  {
    if store != [] {
      OtherNamespace(store[1..], gone, ns);
      var left, rest := Without(store, gone), Without(store[1..], gone);
      assert store[0] in store;
      if store[0].id in gone {
        assert left == rest;
        assert InNamespace(store, ns) == [] + InNamespace(store[1..], ns);
      } else {
        assert left == [store[0]] + rest && left[1..] == rest;
      }
    }
  }

  /** A sweep removes ids of listed, stale pods whose delete was answered as done, and nothing else. */
  lemma {:induction false} SweepStaysInside(items: seq<StoredPod>, desired: string, deletePod: nat -> Option<ApiError>)
    ensures forall id | id in SweepPods(items, desired, deletePod).gone ::
              Removed(deletePod(id)) && exists it :: it in items && it.id == id && Stale(it.pod, desired)
  {
    if items != [] {
      SweepStaysInside(items[1..], desired, deletePod);
      assert forall it :: it in items <==> it == items[0] || it in items[1..];
    }
  }

  /** Visiting a namespace after pods of other namespaces went is like visiting it first. */
  lemma VisitAfterOthers(store: seq<StoredPod>, gone: set<nat>, ns: string, desired: string, answers: Answers)
    requires DistinctIds(store)
    requires forall it | it in store && it.id in gone :: it.pod.namespace != ns
    ensures var here := VisitNamespace(ns, store, desired, answers);
            && VisitNamespace(ns, Without(store, gone), desired, answers) == here
            && Without(Without(store, gone), here.gone) == Without(store, gone + here.gone)
            && forall it | it in store && it.id in here.gone :: it.pod.namespace == ns
  {
    var here := VisitNamespace(ns, store, desired, answers);
    OtherNamespace(store, gone, ns);
    WithoutTwice(store, gone, here.gone);
    SweepStaysInside(InNamespace(store, ns), desired, answers.deletePod);
    SharedIds(store, ns, here.gone);
  }

  lemma SharedIds(store: seq<StoredPod>, ns: string, gone: set<nat>)
    requires DistinctIds(store)
    requires forall id | id in gone :: exists it :: it in InNamespace(store, ns) && it.id == id
    ensures forall it | it in store && it.id in gone :: it.pod.namespace == ns
  {
    InNamespaceMembers(store, ns);
  }
}
