/** Which slots the restart bound of the rotation protocol holds for: exactly those that every admission leaves up to
    date. */
module RotationLimits {
  import opened Prelude
  import opened Features
  import opened Pods
  import opened Defaulters
  import opened DefaulterProperties
  import opened PodWebhook
  import opened Restarter
  import opened Rotation

  /** Every slot empty. */
  function Vacancies(w: World): (slots: seq<Place>)
    ensures |slots| == |w.templates|
  {
    seq(|w.templates|, i requires 0 <= i < |w.templates| => Vacant)
  }

  /** An empty cluster with the bundle published. */
  ghost predicate Ready(w: World, st: State, bundle: string) {
    && |st.deletions| == |w.templates|
    && st.slots == Vacancies(w) && st.worker.Idle? && st.bundle == Some(bundle) && st.holder == w.sha(bundle)
  }

  /** Under a setting that leaves the slot behind, its template is admitted as a stale pod for every other hash. */
  lemma StaleAdmission(w: World, s: nat, hash: string) returns (pod: PodData)
    requires ValidWorld(w) && s < |w.templates| && hash != ""
    requires !Settled(w, s) && Lookup(w.templates[s].annotations, CTB_HASH) != hash
    ensures Admissible(w, hash, w.templates[s], pod) && Stale(pod, hash)
  {
    var c: Setting :| Possible(w, w.templates[s].namespace, c) && !KeepsPace(w, w.templates[s], c);
    var a := Admission(c.nsAnnotations, w.pullSecret, w.landscape, hash);
    pod := Defaulted(w.defaulters, c.cfgs, w.templates[s], a);
    AdmittedStaleIff(w.defaulters, c.cfgs, w.at, w.templates[s], a);
    assert AdmittedAs(w, hash, w.templates[s], pod, c);
  }

  /** The state once the owner has refilled slot s of an empty cluster. */
  function Refilled(w: World, st: State, s: nat, pod: PodData): State
    requires s < |w.templates|
  {
    st.(slots := Vacancies(w)[s := Live(st.nextId, pod)], nextId := st.nextId + 1)
  }

  lemma Refill(w: World, st: State, s: nat, pod: PodData)
    requires s < |w.templates| && st.slots == Vacancies(w) && Admissible(w, st.holder, w.templates[s], pod)
    ensures Reaches(w, st, Refilled(w, st, s, pod))
  {
    hide Reaches, Admissible, Stale;
    var admitted := st.(slots := Vacancies(w)[s := InFlight(pod)]);
    AdmitStep(w, st, s, pod);
    ReachesStep(w, st, AdmitRead(s, pod));
    PersistStep(w, admitted, s, pod);
    ReachesStep(w, admitted, Persist(s));
    ReachesTrans(w, st, admitted, Refilled(w, st, s, pod));
  }

  lemma AdmitStep(w: World, st: State, s: nat, pod: PodData)
    requires s < |w.templates| && st.slots == Vacancies(w)
    ensures Exec(w, st, AdmitRead(s, pod)) == st.(slots := Vacancies(w)[s := InFlight(pod)])
  {
  }

  lemma PersistStep(w: World, st: State, s: nat, pod: PodData)
    requires s < |w.templates| && st.slots == Vacancies(w)[s := InFlight(pod)]
    ensures Exec(w, st, Persist(s)) == Refilled(w, st, s, pod)
  {
    assert st.slots[s := Live(st.nextId, pod)] == Vacancies(w)[s := Live(st.nextId, pod)];
  }

  /** The watcher starts a pass over one namespace. */
  lemma StartPass(w: World, st: State, bundle: string, ns: string)
    requires st.worker.Idle? && st.bundle == Some(bundle) && st.holder == w.sha(bundle)
    ensures Reaches(w, st, st.(worker := Passing(st.holder, [ns], [])))
  {
    hide Reaches, Admissible;
    var fetched := st.(worker := Fetched(bundle));
    ReachesStep(w, st, Fetch);
    ReachesStep(w, fetched, Publish([ns]));
    ReachesTrans(w, st, fetched, st.(worker := Passing(st.holder, [ns], [])));
  }

  lemma OnlyPodListed(w: World, st: State, s: nat, it: StoredPod)
    requires s < |w.templates| && st.slots == Vacancies(w)[s := Live(it.id, it.pod)]
    ensures Lists(st, it.pod.namespace, [it])
  {
    assert LiveAs(st, s, it);
  }

  /** The pass lists the namespace. */
  lemma ListOnly(w: World, st: State, s: nat, it: StoredPod)
    requires s < |w.templates| && st.slots == Vacancies(w)[s := Live(it.id, it.pod)]
    requires st.worker == Passing(st.holder, [it.pod.namespace], [])
    ensures Reaches(w, st, st.(worker := Passing(st.holder, [], [it])))
  {
    hide Reaches, Stale, Admissible, Lists;
    OnlyPodListed(w, st, s, it);
    assert [it.pod.namespace][1..] == [];
    ReachesStep(w, st, ListPods([it]));
  }

  /** The slot is empty again, and one deletion more is counted. */
  function Restarted(w: World, st: State, s: nat): State
    requires s < |st.deletions|
  {
    st.(slots := Vacancies(w), deletions := st.deletions[s := st.deletions[s] + 1])
  }

  /** It finds the only pod stale, deletes it and ends. */
  lemma DeleteOnly(w: World, st: State, s: nat, it: StoredPod)
    requires s < |w.templates| == |st.deletions| && st.slots == Vacancies(w)[s := Live(it.id, it.pod)]
    requires st.worker == Passing(st.holder, [], [it]) && Stale(it.pod, st.holder)
    ensures Reaches(w, st, Restarted(w, st, s).(worker := Idle))
  {
    hide Stale, Reaches, Admissible;
    var deleted := Restarted(w, st, s).(worker := Passing(st.holder, [], []));
    DeleteStep(w, st, s, it);
    assert LiveId(st, s, it.id) && AtStalePod(st);
    ReachesStep(w, st, DeletePod(s));
    ReachesStep(w, deleted, Finish);
    ReachesTrans(w, st, deleted, deleted.(worker := Idle));
  }

  lemma DeleteStep(w: World, st: State, s: nat, it: StoredPod)
    requires s < |w.templates| == |st.deletions| && st.slots == Vacancies(w)[s := Live(it.id, it.pod)]
    requires st.worker == Passing(st.holder, [], [it])
    ensures Exec(w, st, DeletePod(s)) == Restarted(w, st, s).(worker := Passing(st.holder, [], []))
  {
    hide Vacancies, Put, NextItem, Exec;
    DeleteEffect(w, st, s);
    VacatedAgain(w, s, Live(it.id, it.pod));
    NextItemOfOne(st.worker, it);
  }

  lemma DeleteEffect(w: World, st: State, s: nat)
    ensures Exec(w, st, DeletePod(s)) ==
            st.(worker := NextItem(st.worker), slots := Put(st.slots, s, Vacant), deletions := Counted(st.deletions, s))
  {
    hide Put, NextItem, Counted;
  }

  lemma VacatedAgain(w: World, s: nat, place: Place)
    requires s < |w.templates|
    ensures Put(Vacancies(w)[s := place], s, Vacant) == Vacancies(w)
  {
  }

  lemma NextItemOfOne(worker: Worker, it: StoredPod)
    requires worker.Passing? && worker.items == [it]
    ensures NextItem(worker) == worker.(items := [])
  {
  }

  /** One round: the owner recreates the pod, a pass deletes it again, and everything is as before. */
  lemma RestartRound(w: World, st: State, s: nat, bundle: string) returns (next: State)
    requires ValidWorld(w) && Ready(w, st, bundle) && s < |w.templates|
    requires !Settled(w, s) && Lookup(w.templates[s].annotations, CTB_HASH) != st.holder
    ensures Reaches(w, st, next) && Ready(w, next, bundle)
    ensures next.changes == st.changes && next.deletions[s] == st.deletions[s] + 1
  {
    hide Reaches, Admissible, Stale, Settled, Lookup, ValidWorld, Enabled, Exec;
    var pod := StaleAdmission(w, s, st.holder);
    var it := StoredPod(st.nextId, pod);
    var stored := Refilled(w, st, s, pod);
    var passing := stored.(worker := Passing(st.holder, [pod.namespace], []));
    var listed := stored.(worker := Passing(st.holder, [], [it]));
    next := Restarted(w, listed, s).(worker := Idle);
    Refill(w, st, s, pod);
    StartPass(w, stored, bundle, pod.namespace);
    ListOnly(w, passing, s, it);
    DeleteOnly(w, listed, s, it);
    ReachesTrans(w, st, stored, passing);
    ReachesTrans(w, st, passing, listed);
    ReachesTrans(w, st, listed, next);
  }

  /** An empty cluster. */
  function Empty(w: World): State {
    State(None, "", Idle, Vacancies(w), 0, {}, seq(|w.templates|, i => 0), 0)
  }

  lemma EmptyIsInitial(w: World)
    ensures Initial(w, Empty(w))
  {
  }

  function WithFirstHash(w: World, st: State, bundle: string): State {
    st.(bundle := Some(bundle), past := st.past + {bundle}, holder := w.sha(bundle), changes := st.changes + 1)
  }

  lemma UpdateStep(w: World, st: State, bundle: string)
    ensures Reaches(w, st, st.(bundle := Some(bundle), past := st.past + {bundle}))
  {
    ReachesStep(w, st, BundleUpdated(bundle));
  }

  lemma PrecomputeStep(w: World, st: State, bundle: string)
    requires st.bundle == Some(bundle) && st.holder == "" && st.worker.Idle?
    ensures Reaches(w, st, st.(holder := w.sha(bundle), changes := st.changes + 1))
  {
    ReachesStep(w, st, Precompute);
  }

  /** The bundle appears and the start-up read publishes its hash. */
  lemma FirstHash(w: World, st: State, bundle: string)
    requires st.holder == "" && st.worker.Idle?
    ensures Reaches(w, st, WithFirstHash(w, st, bundle))
  {
    var updated := st.(bundle := Some(bundle), past := st.past + {bundle});
    UpdateStep(w, st, bundle);
    PrecomputeStep(w, updated, bundle);
    ReachesTrans(w, st, updated, WithFirstHash(w, st, bundle));
  }

  /** With one single change of the hash such a slot can be restarted any number of times. */
  lemma {:induction false} EndlessRestarts(w: World, s: nat, bundle: string, n: nat) returns (end: State)
    requires ValidWorld(w) && s < |w.templates|
    requires !Settled(w, s) && Lookup(w.templates[s].annotations, CTB_HASH) != w.sha(bundle)
    ensures Reaches(w, Empty(w), end) && Ready(w, end, bundle)
    ensures end.changes == 1 && end.deletions[s] == n
  {
    hide Reaches, Settled, Lookup, ValidWorld, Admissible;
    if n == 0 {
      end := WithFirstHash(w, Empty(w), bundle);
      FirstHash(w, Empty(w), bundle);
    } else {
      var before := EndlessRestarts(w, s, bundle, n - 1);
      end := RestartRound(w, before, s, bundle);
      ReachesTrans(w, Empty(w), before, end);
    }
  }

  /**
   * The exact condition for a slot to be restarted at most as often as the hash changes, on every run from an empty
   * cluster: under every setting an admission may find, its template brings no hash of its own, or has no owner, or is
   * asked for the trust bundle. Of the digest it is only needed that it is not constant.
   */
  lemma BoundHoldsIffSettled(w: World, s: nat)
    requires ValidWorld(w) && s < |w.templates|
    requires exists a, b :: w.sha(a) != w.sha(b)
    ensures Bounded(w, s) <==> Settled(w, s)
  {
    hide Reaches, Settled, ValidWorld, Empty, Admissible;
    if Settled(w, s) {
      forall end | Reaches(w, Empty(w), end)
        ensures Restarts(end, s) <= end.changes
      {
        BoundFromEmpty(w, end, s);
      }
    } else {
      var a, b :| w.sha(a) != w.sha(b);
      var end := TooManyRestarts(w, s, a, b);
    }
  }

  ghost predicate Bounded(w: World, s: nat) {
    forall end | Reaches(w, Empty(w), end) :: Restarts(end, s) <= end.changes
  }

  /** When the configuration and the namespace's annotations stay as they are. */
  lemma BoundUnderOneSetting(w: World, s: nat, c: Setting)
    requires ValidWorld(w) && s < |w.templates| && |c.cfgs| == |w.defaulters|
    requires exists a, b :: w.sha(a) != w.sha(b)
    requires forall d: Setting :: w.allowed(w.templates[s].namespace, d) <==> d == c
    ensures Bounded(w, s) <==> KeptUpToDate(w.templates[s], c.cfgs[w.at], c.nsAnnotations)
  {
    hide Bounded, KeptUpToDate;
    BoundHoldsIffSettled(w, s);
    assert Possible(w, w.templates[s].namespace, c);
    assert KeepsPace(w, w.templates[s], c) <==> KeptUpToDate(w.templates[s], c.cfgs[w.at], c.nsAnnotations);
  }

  /**
   * When every configuration and every annotation of the namespace may come: the template brings no hash of its own, or
   * asks for the trust bundle itself, or has no owner.
   */
  lemma BoundHoldsIffClosed(w: World, s: nat)
    requires ValidWorld(w) && s < |w.templates|
    requires exists a, b :: w.sha(a) != w.sha(b)
    requires forall c: Setting :: w.allowed(w.templates[s].namespace, c)
    ensures Bounded(w, s) <==> Closed(w.templates[s])
  {
    hide Bounded, Settled, Closed;
    BoundHoldsIffSettled(w, s);
    SettledIffClosed(w, s);
  }

  lemma SettledIffClosed(w: World, s: nat)
    requires w.at < |w.defaulters| && s < |w.templates|
    requires forall c: Setting :: w.allowed(w.templates[s].namespace, c)
    ensures Settled(w, s) <==> Closed(w.templates[s])
  {
    hide KeptUpToDate, Closed;
    var template := w.templates[s];
    ClosedIff(template);
    if Settled(w, s) {
      forall cfg: Config, nsAnnotations: Annotations
        ensures KeptUpToDate(template, cfg, nsAnnotations)
      {
        var c := Setting(nsAnnotations, seq(|w.defaulters|, _ => cfg));
        assert Possible(w, template.namespace, c) && KeepsPace(w, template, c);
      }
    }
  }

  lemma TooManyRestarts(w: World, s: nat, a: string, b: string) returns (end: State)
    requires ValidWorld(w) && s < |w.templates| && !Settled(w, s) && w.sha(a) != w.sha(b)
    ensures Reaches(w, Empty(w), end) && Restarts(end, s) > end.changes
  {
    hide Reaches, Settled, Lookup, ValidWorld, Empty, Admissible;
    end := EndlessRestarts(w, s, if w.sha(a) != Lookup(w.templates[s].annotations, CTB_HASH) then a else b, 2);
  }

  lemma BoundFromEmpty(w: World, end: State, s: nat)
    requires ValidWorld(w) && Reaches(w, Empty(w), end) && s < |w.templates| && Settled(w, s)
    ensures Restarts(end, s) <= end.changes
  {
    hide Empty, Settled, ValidWorld, Initial, Admissible;
    EmptyIsInitial(w);
    var es :| CanRun(w, Empty(w), es) && Run(w, Empty(w), es) == end;
    RestartsBoundedByChanges(w, Empty(w), es, s);
  }
}
