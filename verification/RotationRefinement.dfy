/** A reconciliation that nobody interrupts is a run of the rotation protocol, with the very effect the code has. */
module RotationRefinement {
  import opened Prelude
  import opened PodWebhook
  import opened Restarter
  import opened Rotation

  /** store holds exactly the pods that live in the slots. */
  ghost predicate Represents(st: State, store: seq<StoredPod>) {
    && DistinctIds(store)
    && (forall it | it in store :: exists s :: LiveAs(st, s, it))
    && (forall s | 0 <= s < |st.slots| && st.slots[s].Live? :: StoredPod(st.slots[s].id, st.slots[s].pod) in store)
  }

  /** What a pass and its steps leave alone. */
  predicate SameWorld(st: State, next: State) {
    next.holder == st.holder && next.changes == st.changes && next.bundle == st.bundle && next.past == st.past
    && |next.deletions| == |st.deletions| && |next.slots| == |st.slots|
  }

  /** The slot of a pod of the store. */
  lemma SlotOf(st: State, store: seq<StoredPod>, it: StoredPod) returns (s: nat)
    requires Represents(st, store) && it in store
    ensures LiveAs(st, s, it)
  {
    s :| LiveAs(st, s, it);
  }

  /** Emptying the slot of a pod is removing the pod. */
  lemma VacatedRepresents(st: State, store: seq<StoredPod>, it: StoredPod, s: nat, next: State)
    requires UniqueIds(st) && Represents(st, store) && it in store && LiveAs(st, s, it)
    requires next.slots == st.slots[s := Vacant]
    ensures Represents(next, Without(store, {it.id}))
  {
    hide Stale, Admissible;
    var left := Without(store, {it.id});
    WithoutDistinct(store, {it.id});
    WithoutMembers(store, {it.id});
    forall other | other in left
      ensures exists t :: LiveAs(next, t, other)
    {
      var t := SlotOf(st, store, other);
      assert t != s;
      assert LiveAs(next, t, other);
    }
    forall t | 0 <= t < |next.slots| && next.slots[t].Live?
      ensures StoredPod(next.slots[t].id, next.slots[t].pod) in left
    {
      assert t != s && next.slots[t] == st.slots[t];
      assert next.slots[t].id != it.id;
    }
  }

  /** What removing the first listed pod must achieve. */
  ghost predicate RemovedFirst(st: State, store: seq<StoredPod>, next: State) {
    && st.worker.Passing? && st.worker.items != []
    && SameWorld(st, next) && UniqueIds(next)
    && Represents(next, Without(store, {st.worker.items[0].id}))
    && next.worker == st.worker.(items := st.worker.items[1..])
  }

  /** The delete is answered well. */
  lemma DeletionIsRun(w: World, st: State, store: seq<StoredPod>, s: nat)
    requires UniqueIds(st) && Represents(st, store) && AtStalePod(st)
    requires st.worker.items[0] in store && LiveAs(st, s, st.worker.items[0])
    ensures Reaches(w, st, Exec(w, st, DeletePod(s))) && RemovedFirst(st, store, Exec(w, st, DeletePod(s)))
  {
    hide Stale, Reaches, Without, Represents, UniqueIds, Lists, Admissible;
    ReachesStep(w, st, DeletePod(s));
    VacatedRepresents(st, store, st.worker.items[0], s, Exec(w, st, DeletePod(s)));
    StepUniqueIds(w, st, DeletePod(s));
  }

  /** Someone else removed the pod: its slot is vacated first, then the pass finds it gone. */
  lemma OthersRemoval(w: World, st: State, store: seq<StoredPod>, s: nat)
    requires UniqueIds(st) && Represents(st, store) && AtStalePod(st)
    requires st.worker.items[0] in store && LiveAs(st, s, st.worker.items[0])
    ensures var left := Exec(w, st, Leave(s));
            && Reaches(w, st, left) && SameWorld(st, left) && UniqueIds(left) && left.worker == st.worker
            && Represents(left, Without(store, {st.worker.items[0].id}))
            && forall t :: !LiveId(left, t, st.worker.items[0].id)
  {
    hide Stale, Reaches, Without, Represents, Lists, Admissible;
    ReachesStep(w, st, Leave(s));
    VacatedRepresents(st, store, st.worker.items[0], s, Exec(w, st, Leave(s)));
    StepUniqueIds(w, st, Leave(s));
  }

  /** One stale item whose delete is answered as done: deleted, or found to be gone. */
  lemma RemovalIsRun(w: World, st: State, store: seq<StoredPod>, answer: Option<ApiError>) returns (next: State)
    requires UniqueIds(st) && Represents(st, store) && AtStalePod(st) && st.worker.items[0] in store && Removed(answer)
    ensures Reaches(w, st, next) && RemovedFirst(st, store, next)
  {
    hide Stale, Reaches, Without, Represents, Exec, Admissible;
    var it := st.worker.items[0];
    var s := SlotOf(st, store, it);
    if answer.None? {
      next := Exec(w, st, DeletePod(s));
      DeletionIsRun(w, st, store, s);
    } else {
      var left := Exec(w, st, Leave(s));
      OthersRemoval(w, st, store, s);
      PodGoneRuns(w, left, it);
      next := Exec(w, left, PodGone);
      ReachesTrans(w, st, left, next);
      SlotsRepresent(left, next, Without(store, {it.id}));
    }
  }

  lemma SlotsRepresent(st: State, next: State, store: seq<StoredPod>)
    requires Represents(st, store) && next.slots == st.slots
    ensures Represents(next, store)
  {
    forall it | it in store
      ensures exists s :: LiveAs(next, s, it)
    {
      var s := SlotOf(st, store, it);
      assert LiveAs(next, s, it);
    }
  }

  lemma PodGoneRuns(w: World, st: State, it: StoredPod)
    requires AtStalePod(st) && st.worker.items[0] == it && UniqueIds(st)
    requires forall s :: !LiveId(st, s, it.id)
    ensures var next := Exec(w, st, PodGone);
            && Reaches(w, st, next) && next.slots == st.slots && SameWorld(st, next) && UniqueIds(next)
            && next.worker == st.worker.(items := st.worker.items[1..])
  {
    hide Stale, Reaches, Lists, Admissible;
    ReachesStep(w, st, PodGone);
  }

  // ===== a namespace =====

  /** What a listing leaves the watcher with: distinct pods, all of them in the store. */
  ghost predicate Listed(items: seq<StoredPod>, store: seq<StoredPod>) {
    DistinctIds(items) && forall it | it in items :: it in store
  }

  /** Going through the listed pods of a namespace, whatever the answers: the sweep of the code. */
  ghost predicate Swept(st: State, store: seq<StoredPod>, s: Sweep, next: State) {
    && st.worker.Passing?
    && SameWorld(st, next) && UniqueIds(next) && Represents(next, Without(store, s.gone))
    && next.worker == if s.err.None? || s.err == Some(Forbidden) then st.worker.(items := []) else Idle
  }

  /** An event of the watcher's that touches no pod. */
  lemma QuietStep(w: World, st: State, e: Event, store: seq<StoredPod>) returns (next: State)
    requires UniqueIds(st) && Represents(st, store) && Enabled(w, st, e)
    requires e.KeepPod? || e.DeleteForbidden? || e.Abort? || e.SkipNamespace? || e.ListPods? || e.Finish? || e.Fetch?
    ensures next == Exec(w, st, e) && Reaches(w, st, next)
    ensures SameWorld(st, next) && UniqueIds(next) && Represents(next, store)
    ensures next.worker == NextWorker(w, st, e)
  {
    hide Stale, Reaches, Represents, Lists, Enabled, NextWorker;
    next := Exec(w, st, e);
    ReachesStep(w, st, e);
    SlotsRepresent(st, next, store);
  }

  /** The first pod is passed over. */
  lemma KeepFirst(w: World, st: State, store: seq<StoredPod>) returns (mid: State)
    requires UniqueIds(st) && Represents(st, store)
    requires st.worker.Passing? && st.worker.items != [] && !Stale(st.worker.items[0].pod, st.worker.desired)
    ensures Reaches(w, st, mid) && SameWorld(st, mid) && UniqueIds(mid) && Represents(mid, store)
    ensures mid.worker == st.worker.(items := st.worker.items[1..])
  {
    hide Stale, Reaches, Represents, Exec, UniqueIds, SameWorld, Admissible;
    mid := QuietStep(w, st, KeepPod, store);
  }

  /** Passing over the first pod, then sweeping the rest. */
  lemma KeptThenSwept(w: World, st: State, mid: State, next: State, store: seq<StoredPod>, rest: Sweep)
    requires st.worker.Passing? && st.worker.items != [] && SameWorld(st, mid) && Swept(mid, store, rest, next)
    requires mid.worker == st.worker.(items := st.worker.items[1..])
    requires Reaches(w, st, mid) && Reaches(w, mid, next)
    ensures Reaches(w, st, next) && Swept(st, store, rest, next)
  {
    hide Represents, Without, UniqueIds, Reaches, Admissible;
    ReachesTrans(w, st, mid, next);
  }

  /** Removing the first pod, then sweeping the rest. */
  lemma RemovedThenSwept(w: World, st: State, mid: State, next: State, store: seq<StoredPod>, rest: Sweep)
    requires RemovedFirst(st, store, mid) && Swept(mid, Without(store, {st.worker.items[0].id}), rest, next)
    requires Reaches(w, st, mid) && Reaches(w, mid, next)
    ensures Reaches(w, st, next)
    ensures Swept(st, store, Then(Sweep({st.worker.items[0].id}, true, None), rest), next)
  {
    hide Represents, UniqueIds, Reaches, Admissible;
    WithoutTwice(store, {st.worker.items[0].id}, rest.gone);
    ReachesTrans(w, st, mid, next);
  }

  /** Nothing is left to sweep. */
  lemma SweptNothing(w: World, st: State, store: seq<StoredPod>)
    requires UniqueIds(st) && Represents(st, store) && st.worker.Passing? && st.worker.items == []
    ensures Reaches(w, st, st) && Swept(st, store, Sweep({}, false, None), st)
  {
    ReachesItself(w, st);
    WithoutNone(store);
  }

  /** A refused delete ends the sweep, and the whole pass unless it was Forbidden. */
  lemma SweepRefused(w: World, st: State, store: seq<StoredPod>, refusal: ApiError) returns (next: State)
    requires UniqueIds(st) && Represents(st, store) && AtStalePod(st)
    ensures Reaches(w, st, next) && Swept(st, store, Sweep({}, false, Some(refusal)), next)
  {
    hide Stale, Reaches, Represents, Exec, UniqueIds, SameWorld, Admissible;
    next := QuietStep(w, st, if refusal == Forbidden then DeleteForbidden else Abort, store);
    WithoutNone(store);
  }

  lemma {:induction false} SweepIsRun(w: World, st: State, store: seq<StoredPod>, deletePod: nat -> Option<ApiError>)
    returns (next: State)
    requires UniqueIds(st) && Represents(st, store) && st.worker.Passing? && Listed(st.worker.items, store)
    ensures Reaches(w, st, next)
    ensures Swept(st, store, SweepPods(st.worker.items, st.worker.desired, deletePod), next)
    decreases |st.worker.items|
  {
    hide Stale, Reaches, Represents, Without, UniqueIds, Swept, Listed, SameWorld, Then, Admissible;
    var items, desired := st.worker.items, st.worker.desired;
    if items == [] {
      next := st;
      SweptNothing(w, st, store);
    } else {
      ListedRest(items, store);
      var rest := SweepPods(items[1..], desired, deletePod);
      if !Stale(items[0].pod, desired) {
        var mid := KeepFirst(w, st, store);
        next := SweepIsRun(w, mid, store, deletePod);
        KeptThenSwept(w, st, mid, next, store, rest);
      } else if Removed(deletePod(items[0].id)) {
        var mid := RemovalIsRun(w, st, store, deletePod(items[0].id));
        next := SweepIsRun(w, mid, Without(store, {items[0].id}), deletePod);
        RemovedThenSwept(w, st, mid, next, store, rest);
      } else {
        next := SweepRefused(w, st, store, deletePod(items[0].id).value);
      }
    }
  }

  lemma ListedRest(items: seq<StoredPod>, store: seq<StoredPod>)
    requires items != [] && Listed(items, store)
    ensures items[0] in store && Listed(items[1..], store) && Listed(items[1..], Without(store, {items[0].id}))
  {
    WithoutMembers(store, {items[0].id});
    forall it | it in items[1..]
      ensures it.id != items[0].id && it in items
    {
      var i :| 0 <= i < |items[1..]| && items[1..][i] == it;
      assert items[i + 1] == it;
    }
  }

  lemma ReachesItself(w: World, st: State)
    ensures Reaches(w, st, st)
  {
    assert CanRun(w, st, []) && Run(w, st, []) == st;
  }

  /** A list answer as the protocol takes it. */
  lemma ListIsExact(st: State, store: seq<StoredPod>, ns: string)
    requires Represents(st, store)
    ensures Lists(st, ns, InNamespace(store, ns)) && Listed(InNamespace(store, ns), store)
  {
    InNamespaceMembers(store, ns);
    InNamespaceDistinct(store, ns);
  }

  lemma {:induction false} InNamespaceDistinct(store: seq<StoredPod>, ns: string)
    requires DistinctIds(store)
    ensures DistinctIds(InNamespace(store, ns))
  {
    if store != [] {
      InNamespaceDistinct(store[1..], ns);
      InNamespaceMembers(store[1..], ns);
      var rest := InNamespace(store[1..], ns);
      forall j | 0 <= j < |rest|
        ensures rest[j].id != store[0].id
      {
        assert rest[j] in store[1..];
      }
    }
  }

  /** The watcher once a namespace has been visited. */
  function AfterVisit(worker: Worker, err: Option<ApiError>): Worker {
    if !worker.Passing? || worker.todo == [] then worker
    else if err.None? || err == Some(Forbidden) then Passing(worker.desired, worker.todo[1..], [])
    else Idle
  }

  /** One namespace of a pass. */
  ghost predicate Visited(st: State, store: seq<StoredPod>, s: Sweep, next: State) {
    && SameWorld(st, next) && UniqueIds(next) && Represents(next, Without(store, s.gone))
    && next.worker == AfterVisit(st.worker, s.err)
  }

  /** The namespace may be listed: what comes back is swept. */
  lemma VisitListed(w: World, st: State, store: seq<StoredPod>, deletePod: nat -> Option<ApiError>)
    returns (next: State)
    requires UniqueIds(st) && Represents(st, store)
    requires st.worker.Passing? && st.worker.items == [] && st.worker.todo != []
    ensures Reaches(w, st, next)
    ensures Visited(st, store, SweepPods(InNamespace(store, st.worker.todo[0]), st.worker.desired, deletePod), next)
  {
    hide Stale, Reaches, Represents, Without, Exec, UniqueIds, Lists, SweepPods, InNamespace, Listed, Admissible;
    var items := InNamespace(store, st.worker.todo[0]);
    ListIsExact(st, store, st.worker.todo[0]);
    var mid := QuietStep(w, st, ListPods(items), store);
    next := SweepIsRun(w, mid, store, deletePod);
    ReachesTrans(w, st, mid, next);
  }

  /** The list is refused: a Forbidden answer skips the namespace, any other ends the pass. */
  lemma VisitRefused(w: World, st: State, store: seq<StoredPod>, refusal: ApiError) returns (next: State)
    requires UniqueIds(st) && Represents(st, store)
    requires st.worker.Passing? && st.worker.items == [] && st.worker.todo != []
    ensures Reaches(w, st, next) && Visited(st, store, Sweep({}, false, Some(refusal)), next)
  {
    hide Stale, Reaches, Represents, Exec, UniqueIds, SameWorld, Admissible;
    next := QuietStep(w, st, if refusal == Forbidden then SkipNamespace else Abort, store);
    WithoutNone(store);
  }

  lemma VisitIsRun(w: World, st: State, store: seq<StoredPod>, answers: Answers) returns (next: State)
    requires UniqueIds(st) && Represents(st, store)
    requires st.worker.Passing? && st.worker.items == [] && st.worker.todo != []
    ensures Reaches(w, st, next)
    ensures Visited(st, store, VisitNamespace(st.worker.todo[0], store, st.worker.desired, answers), next)
  {
    hide Reaches, Represents, UniqueIds, SweepPods, InNamespace, Visited, Admissible;
    var refusal := answers.listPods(st.worker.todo[0]);
    if refusal.None? {
      next := VisitListed(w, st, store, answers.deletePod);
    } else {
      next := VisitRefused(w, st, store, refusal.value);
    }
  }

  // ===== the whole pass =====

  /** No namespace comes twice, and the pods gone so far belong to namespaces already visited. */
  ghost predicate Ahead(store: seq<StoredPod>, gone: set<nat>, todo: seq<string>) {
    && (forall i, j | 0 <= i < j < |todo| :: todo[i] != todo[j])
    && forall it | it in store && it.id in gone :: it.pod.namespace !in todo
  }

  /** Visiting the next namespace after the earlier ones, and what is ahead then. */
  lemma VisitNext(store: seq<StoredPod>, gone: set<nat>, todo: seq<string>, desired: string, answers: Answers)
    requires DistinctIds(store) && todo != [] && Ahead(store, gone, todo)
    ensures var here := VisitNamespace(todo[0], store, desired, answers);
            && VisitNamespace(todo[0], Without(store, gone), desired, answers) == here
            && Without(Without(store, gone), here.gone) == Without(store, gone + here.gone)
            && Ahead(store, gone + here.gone, todo[1..])
  {
    hide VisitNamespace, Without, Admissible;
    VisitAfterOthers(store, gone, todo[0], desired, answers);
    var here := VisitNamespace(todo[0], store, desired, answers);
    forall it | it in store && it.id in gone + here.gone
      ensures it.pod.namespace !in todo[1..]
    {
      assert todo == [todo[0]] + todo[1..];
    }
  }

  ghost predicate Passed(st: State, store: seq<StoredPod>, gone: set<nat>, s: Sweep, next: State) {
    && SameWorld(st, next) && UniqueIds(next) && next.worker.Idle?
    && Represents(next, Without(store, gone + s.gone))
  }

  /** A visit that ended well or Forbidden, then the rest of the pass. */
  lemma VisitedThenPassed(w: World, st: State, mid: State, next: State, store: seq<StoredPod>, gone: set<nat>,
                          here: Sweep, rest: Sweep)
    requires SameWorld(st, mid) && Passed(mid, store, gone + here.gone, rest, next)
    requires Reaches(w, st, mid) && Reaches(w, mid, next)
    ensures Reaches(w, st, next)
    ensures Passed(st, store, gone, Then(here, rest), next)
    ensures Passed(st, store, gone, Then(Sweep(here.gone, false, None), rest), next)
  {
    hide Represents, Without, UniqueIds, Reaches, Admissible;
    ReachesTrans(w, st, mid, next);
    assert gone + here.gone + rest.gone == gone + (here.gone + rest.gone);
  }

  /** The next namespace of a pass, after those whose pods in `gone` went. */
  lemma VisitFirst(w: World, st: State, store: seq<StoredPod>, gone: set<nat>, answers: Answers) returns (mid: State)
    requires UniqueIds(st) && DistinctIds(store) && Represents(st, Without(store, gone))
    requires st.worker.Passing? && st.worker.items == [] && st.worker.todo != []
    requires Ahead(store, gone, st.worker.todo)
    ensures var here := VisitNamespace(st.worker.todo[0], store, st.worker.desired, answers);
            && Reaches(w, st, mid) && SameWorld(st, mid) && UniqueIds(mid)
            && Represents(mid, Without(store, gone + here.gone)) && Ahead(store, gone + here.gone, st.worker.todo[1..])
            && mid.worker == AfterVisit(st.worker, here.err)
  {
    hide Reaches, Represents, Without, UniqueIds, VisitNamespace, DistinctIds, Ahead, SameWorld, AfterVisit, Admissible;
    VisitNext(store, gone, st.worker.todo, st.worker.desired, answers);
    mid := VisitIsRun(w, st, Without(store, gone), answers);
  }

  lemma {:induction false} PassIsRun(w: World, st: State, store: seq<StoredPod>, gone: set<nat>, answers: Answers)
    returns (next: State)
    requires UniqueIds(st) && DistinctIds(store) && Represents(st, Without(store, gone))
    requires st.worker.Passing? && st.worker.items == []
    requires Ahead(store, gone, st.worker.todo)
    ensures Reaches(w, st, next)
    ensures Passed(st, store, gone, Pass(st.worker.todo, store, st.worker.desired, answers), next)
    decreases |st.worker.todo|
  {
    hide Reaches, Represents, Without, UniqueIds, VisitNamespace, DistinctIds, Ahead, Passed,
         Then, SameWorld, Admissible;
    var todo := st.worker.todo;
    if todo == [] {
      next := PassOver(w, st, store, gone);
    } else {
      var here := VisitNamespace(todo[0], store, st.worker.desired, answers);
      var mid := VisitFirst(w, st, store, gone, answers);
      if here.err.None? || here.err == Some(Forbidden) {
        next := PassIsRun(w, mid, store, gone + here.gone, answers);
        VisitedThenPassed(w, st, mid, next, store, gone, here, Pass(todo[1..], store, st.worker.desired, answers));
      } else {
        next := mid;
        CutShort(st, next, store, gone, here);
      }
    }
  }

  /** Every namespace has been visited. */
  lemma PassOver(w: World, st: State, store: seq<StoredPod>, gone: set<nat>) returns (next: State)
    requires UniqueIds(st) && Represents(st, Without(store, gone))
    requires st.worker.Passing? && st.worker.items == [] && st.worker.todo == []
    ensures Reaches(w, st, next) && Passed(st, store, gone, Sweep({}, false, None), next)
  {
    hide Reaches, Represents, Without, UniqueIds, Exec, SameWorld, Admissible;
    next := QuietStep(w, st, Finish, Without(store, gone));
    assert gone + {} == gone;
  }

  /** An error other than Forbidden ends the pass. */
  lemma CutShort(st: State, next: State, store: seq<StoredPod>, gone: set<nat>, here: Sweep)
    requires SameWorld(st, next) && UniqueIds(next) && next.worker.Idle?
    requires Represents(next, Without(store, gone + here.gone))
    ensures Passed(st, store, gone, here, next)
  {
    hide Represents, Without, UniqueIds, Admissible;
  }

  /**
   * A reconciliation that nobody interrupts, whatever the API server answers, is a run of the protocol: it ends with
   * the published hash, an idle watcher, and exactly the pods the code leaves in the cluster.
   */
  lemma ReconcileIsRun(w: World, st: State, bundle: string, namespaces: seq<string>, store: seq<StoredPod>,
                       answers: Answers)
    returns (next: State)
    requires UniqueIds(st) && st.worker.Idle? && st.bundle == Some(bundle) && Represents(st, store)
    requires forall i, j | 0 <= i < j < |namespaces| :: namespaces[i] != namespaces[j]
    ensures Reaches(w, st, next)
    ensures next.worker.Idle? && next.holder == w.sha(bundle)
    ensures Represents(next, Without(store, FullPass(namespaces, store, w.sha(bundle), answers).gone))
  {
    hide Stale, Reaches, Represents, Exec, Without, UniqueIds, Pass, Ahead, DistinctIds, Admissible;
    var fetched := QuietStep(w, st, Fetch, store);
    var listed := if answers.listNamespaces.None? then namespaces else [];
    var published := PublishStep(w, fetched, listed, store);
    ReachesTrans(w, st, fetched, published);
    WithoutNone(store);
    if answers.listNamespaces.None? {
      DistinctStore(published, store);
      AllAhead(store, namespaces);
      next := PassIsRun(w, published, store, {}, answers);
      var gone := Pass(namespaces, store, w.sha(bundle), answers).gone;
      assert {} + gone == gone;
    } else {
      next := QuietStep(w, published, Abort, store);
    }
    ReachesTrans(w, st, published, next);
  }

  lemma AllAhead(store: seq<StoredPod>, namespaces: seq<string>)
    requires forall i, j | 0 <= i < j < |namespaces| :: namespaces[i] != namespaces[j]
    ensures Ahead(store, {}, namespaces)
  {
  }

  lemma DistinctStore(st: State, store: seq<StoredPod>)
    requires Represents(st, store)
    ensures DistinctIds(store)
  {
  }

  lemma PublishStep(w: World, st: State, namespaces: seq<string>, store: seq<StoredPod>) returns (next: State)
    requires UniqueIds(st) && Represents(st, store) && st.worker.Fetched?
    ensures Reaches(w, st, next) && UniqueIds(next) && Represents(next, store)
    ensures next.holder == w.sha(st.worker.bundle) && next.worker == Passing(next.holder, namespaces, [])
  {
    hide Stale, Reaches, Represents, Admissible;
    next := Exec(w, st, Publish(namespaces));
    ReachesStep(w, st, Publish(namespaces));
    SlotsRepresent(st, next, store);
  }
}
