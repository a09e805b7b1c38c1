/**
 * The trust-bundle rotation protocol: bundle updates, the watcher's reconciliation taken apart into its calls,
 * admissions taken apart into reading the holder and persisting the pod, and everyone else's pod removals, in any
 * interleaving. One process runs the watcher and the webhook.
 */
module Rotation {
  import opened Prelude
  import opened Features
  import opened Pods
  import opened HashHolders
  import opened Defaulters
  import opened PodWebhook
  import opened Restarter

  /** What never changes: slot i is refilled by its owner from templates[i]; `at` is where the trust-bundle
      defaulter stands in the webhook's list (the watcher only runs when it is there); `allowed` are the settings that
      an admission in a namespace may find. */
  datatype World = World(
    sha: Digest,
    templates: seq<PodData>,
    defaulters: seq<Defaulter>,
    at: nat,
    pullSecret: string,
    landscape: string,
    allowed: (string, Setting) -> bool)

  /** What an admission reads on the way: the namespace's annotations, and a configuration for each defaulter. */
  datatype Setting = Setting(nsAnnotations: Annotations, cfgs: seq<Config>)

  /** A slot is empty, waits for its admitted pod to be stored, or has a pod. */
  datatype Place = Vacant | InFlight(pod: PodData) | Live(id: nat, pod: PodData)

  /** The watcher: idle, past reading the bundle, or in a pass (namespaces and listed pods still to visit). */
  datatype Worker = Idle | Fetched(bundle: string) | Passing(desired: string, todo: seq<string>, items: seq<StoredPod>)

  /** past, deletions and changes record history: bundles there were, deletions per slot, changes of the holder. */
  datatype State = State(
    bundle: Option<string>,
    holder: string,
    worker: Worker,
    slots: seq<Place>,
    nextId: nat,
    past: set<string>,
    deletions: seq<nat>,
    changes: nat)

  datatype Event =
    | BundleUpdated(bundle: string)
    | BundleRemoved
    | Precompute
    | Fetch
    | Publish(namespaces: seq<string>)
    | ListPods(items: seq<StoredPod>)
    | SkipNamespace
    | KeepPod
    | DeletePod(slot: nat)
    | PodGone
    | DeleteForbidden
    | Abort
    | Finish
    | AdmitRead(slot: nat, pod: PodData)
    | Persist(slot: nat)
    | Leave(slot: nat)

  ghost predicate ValidWorld(w: World) {
    && w.at < |w.defaulters| && w.defaulters[w.at] == TrustBundle
    && forall j | 0 <= j < |w.defaulters| && j != w.at :: !w.defaulters[j].TrustBundle?
  }

  /** With the trust bundle in the catalogue, the list the webhook selects makes a valid world. */
  lemma SelectedWorldIsValid(w: World, available: seq<string>) returns (at: nat)
    requires Selection(available, w.defaulters) && ADD_TRUST_BUNDLE in available
    ensures ValidWorld(w.(at := at))
  {
    assert Feature(TrustBundle) in available;
    at :| at < |w.defaulters| && w.defaulters[at] == TrustBundle;
    forall j | 0 <= j < |w.defaulters| && j != at
      ensures !w.defaulters[j].TrustBundle?
    {
      assert Rank(w.defaulters[j]) != Rank(w.defaulters[at]);
    }
  }

  // ===== steps =====

  predicate LiveAs(st: State, s: nat, it: StoredPod) {
    s < |st.slots| && st.slots[s] == Live(it.id, it.pod)
  }

  predicate LiveId(st: State, s: nat, id: nat) {
    s < |st.slots| && st.slots[s].Live? && st.slots[s].id == id
  }

  /** The list of a namespace: exactly the pods that are there now, in any order. */
  ghost predicate Lists(st: State, ns: string, items: seq<StoredPod>) {
    && DistinctIds(items)
    && (forall it | it in items :: it.pod.namespace == ns && exists s :: LiveAs(st, s, it))
    && (forall s | 0 <= s < |st.slots| && st.slots[s].Live? && st.slots[s].pod.namespace == ns ::
          StoredPod(st.slots[s].id, st.slots[s].pod) in items)
  }

  predicate Possible(w: World, ns: string, c: Setting) {
    |c.cfgs| == |w.defaulters| && w.allowed(ns, c)
  }

  /** What the webhook may make of a template while the holder has this hash, under some setting. */
  ghost predicate Admissible(w: World, hash: string, template: PodData, pod: PodData) {
    exists c: Setting :: AdmittedAs(w, hash, template, pod, c)
  }

  predicate AdmittedAs(w: World, hash: string, template: PodData, pod: PodData, c: Setting) {
    && Possible(w, template.namespace, c)
    && pod == Defaulted(w.defaulters, c.cfgs, template, Admission(c.nsAnnotations, w.pullSecret, w.landscape, hash))
  }

  predicate KeepsPace(w: World, template: PodData, c: Setting) {
    w.at < |c.cfgs| && KeptUpToDate(template, c.cfgs[w.at], c.nsAnnotations)
  }

  /** Whatever an admission finds, the pods of the slot leave it up to date. */
  ghost predicate Settled(w: World, s: nat) {
    && s < |w.templates|
    && forall c: Setting | Possible(w, w.templates[s].namespace, c) :: KeepsPace(w, w.templates[s], c)
  }

  ghost predicate Enabled(w: World, st: State, e: Event) {
    match e
    case BundleUpdated(_) => true
    case BundleRemoved => true
    case Precompute => st.worker.Idle? && st.bundle.Some?
    case Fetch => st.worker.Idle? && st.bundle.Some?
    case Publish(_) => st.worker.Fetched?
    case ListPods(items) =>
      st.worker.Passing? && st.worker.items == [] && st.worker.todo != [] && Lists(st, st.worker.todo[0], items)
    case SkipNamespace => st.worker.Passing? && st.worker.items == [] && st.worker.todo != []
    case KeepPod => st.worker.Passing? && st.worker.items != [] && !Stale(st.worker.items[0].pod, st.worker.desired)
    case DeletePod(s) => AtStalePod(st) && LiveId(st, s, st.worker.items[0].id)
    case PodGone => AtStalePod(st) && forall s :: !LiveId(st, s, st.worker.items[0].id)
    case DeleteForbidden => AtStalePod(st)
    case Abort => st.worker.Passing?
    case Finish => st.worker.Passing? && st.worker.items == [] && st.worker.todo == []
    case AdmitRead(s, pod) =>
      s < |st.slots| == |w.templates| && st.slots[s].Vacant? && Admissible(w, st.holder, w.templates[s], pod)
    case Persist(s) => s < |st.slots| && st.slots[s].InFlight?
    case Leave(s) => s < |st.slots|
  }

  predicate AtStalePod(st: State) {
    st.worker.Passing? && st.worker.items != [] && Stale(st.worker.items[0].pod, st.worker.desired)
  }

  function Put(slots: seq<Place>, s: nat, place: Place): seq<Place> {
    if s < |slots| then slots[s := place] else slots
  }

  function NextSlots(st: State, e: Event): seq<Place> {
    match e
    case DeletePod(s) => Put(st.slots, s, Vacant)
    case AdmitRead(s, pod) => Put(st.slots, s, InFlight(pod))
    case Persist(s) =>
      if s < |st.slots| && st.slots[s].InFlight? then Put(st.slots, s, Live(st.nextId, st.slots[s].pod)) else st.slots
    case Leave(s) => Put(st.slots, s, Vacant)
    case _ => st.slots
  }

  /** The hash a reconciliation or the start-up read publishes; otherwise the holder is left alone. */
  function NextHolder(w: World, st: State, e: Event): string {
    match e
    case Precompute => if st.bundle.Some? then w.sha(st.bundle.value) else st.holder
    case Publish(_) => if st.worker.Fetched? then w.sha(st.worker.bundle) else st.holder
    case _ => st.holder
  }

  /** The watcher's loop: namespaces in order, then the listed pods in order; any error ends the pass, except a
      Forbidden one, which ends the namespace. */
  function NextWorker(w: World, st: State, e: Event): Worker {
    match e
    case Fetch => if st.bundle.Some? then Fetched(st.bundle.value) else st.worker
    case Publish(namespaces) =>
      if st.worker.Fetched? then Passing(w.sha(st.worker.bundle), namespaces, []) else st.worker
    case ListPods(items) => NextNamespace(st.worker, items)
    case SkipNamespace => NextNamespace(st.worker, [])
    case KeepPod => NextItem(st.worker)
    case DeletePod(_) => NextItem(st.worker)
    case PodGone => NextItem(st.worker)
    case DeleteForbidden => if st.worker.Passing? then st.worker.(items := []) else st.worker
    case Abort => Idle
    case Finish => Idle
    case _ => st.worker
  }

  function NextItem(worker: Worker): Worker {
    if worker.Passing? && worker.items != [] then worker.(items := worker.items[1..]) else worker
  }

  function NextNamespace(worker: Worker, items: seq<StoredPod>): Worker {
    if worker.Passing? && worker.todo != [] then worker.(todo := worker.todo[1..], items := items) else worker
  }

  function Counted(deletions: seq<nat>, s: nat): seq<nat> {
    if s < |deletions| then deletions[s := deletions[s] + 1] else deletions
  }

  /** The state after an enabled event (what it is after another one is of no interest). */
  function Exec(w: World, st: State, e: Event): State {
    var holder := NextHolder(w, st, e);
    State(
      match e { case BundleUpdated(b) => Some(b) case BundleRemoved => None case _ => st.bundle },
      holder,
      NextWorker(w, st, e),
      NextSlots(st, e),
      if e.Persist? then st.nextId + 1 else st.nextId,
      if e.BundleUpdated? then st.past + {e.bundle} else st.past,
      if e.DeletePod? then Counted(st.deletions, e.slot) else st.deletions,
      if holder == st.holder then st.changes else st.changes + 1)
  }

  // ===== runs =====

  ghost predicate CanRun(w: World, st: State, es: seq<Event>)
    decreases |es|
  {
    es != [] ==> Enabled(w, st, es[0]) && CanRun(w, Exec(w, st, es[0]), es[1..])
  }

  function Run(w: World, st: State, es: seq<Event>): State
    decreases |es|
  {
    if es == [] then st else Run(w, Exec(w, st, es[0]), es[1..])
  }

  lemma {:induction false} RunAppend(w: World, st: State, es: seq<Event>, fs: seq<Event>)
    requires CanRun(w, st, es) && CanRun(w, Run(w, st, es), fs)
    ensures CanRun(w, st, es + fs) && Run(w, st, es + fs) == Run(w, Run(w, st, es), fs)
    decreases |es|
  {
    hide Enabled, Exec;
    if es == [] {
      assert es + fs == fs;
    } else {
      assert (es + fs)[1..] == es[1..] + fs;
      RunAppend(w, Exec(w, st, es[0]), es[1..], fs);
    }
  }

  /** Some run leads from st to end. */
  ghost predicate Reaches(w: World, st: State, end: State) {
    exists es :: CanRun(w, st, es) && Run(w, st, es) == end
  }

  lemma ReachesTrans(w: World, a: State, b: State, c: State)
    requires Reaches(w, a, b) && Reaches(w, b, c)
    ensures Reaches(w, a, c)
  {
    hide Enabled, Exec;
    var es :| CanRun(w, a, es) && Run(w, a, es) == b;
    var fs :| CanRun(w, b, fs) && Run(w, b, fs) == c;
    RunAppend(w, a, es, fs);
  }

  lemma ReachesStep(w: World, st: State, e: Event)
    requires Enabled(w, st, e)
    ensures Reaches(w, st, Exec(w, st, e))
  {
    hide Enabled, Exec;
    var next := Exec(w, st, e);
    assert [e][1..] == [] && CanRun(w, next, []) && Run(w, next, []) == next;
    assert CanRun(w, st, [e]) && Run(w, st, [e]) == next;
  }

  /** How often slot s was deleted, and how often the holder changed, on a run. */
  function DeletesOf(es: seq<Event>, s: nat): nat {
    if es == [] then 0 else (if es[0] == DeletePod(s) then 1 else 0) + DeletesOf(es[1..], s)
  }

  function ChangesOn(w: World, st: State, es: seq<Event>): nat
    decreases |es|
  {
    if es == [] then 0
    else
      var next := Exec(w, st, es[0]);
      (if next.holder != st.holder then 1 else 0) + ChangesOn(w, next, es[1..])
  }

  function BundlesOf(es: seq<Event>): set<string> {
    if es == [] then {} else (if es[0].BundleUpdated? then {es[0].bundle} else {}) + BundlesOf(es[1..])
  }

  /** The history in the state is the history of the run: the bundles there were, the deletions, and the changes. */
  lemma {:induction false} HistoryIsTrue(w: World, st: State, es: seq<Event>)
    ensures Run(w, st, es).past == st.past + BundlesOf(es)
    ensures |Run(w, st, es).deletions| == |st.deletions|
    ensures forall s | 0 <= s < |st.deletions| :: Run(w, st, es).deletions[s] == st.deletions[s] + DeletesOf(es, s)
    ensures Run(w, st, es).changes == st.changes + ChangesOn(w, st, es)
    decreases |es|
  {
    hide Exec;
    if es != [] {
      StepHistory(w, st, es[0]);
      HistoryIsTrue(w, Exec(w, st, es[0]), es[1..]);
    }
  }

  lemma StepHistory(w: World, st: State, e: Event)
    ensures var next := Exec(w, st, e);
            && next.past == st.past + (if e.BundleUpdated? then {e.bundle} else {})
            && |next.deletions| == |st.deletions|
            && (forall s | 0 <= s < |st.deletions| ::
                  next.deletions[s] == st.deletions[s] + if e == DeletePod(s) then 1 else 0)
            && next.changes == st.changes + if next.holder != st.holder then 1 else 0
  {
  }

  // ===== what every reachable state satisfies =====

  /** Identities are unique and below the next one to be given. */
  ghost predicate UniqueIds(st: State) {
    && (forall s | 0 <= s < |st.slots| && st.slots[s].Live? :: st.slots[s].id < st.nextId)
    && (forall s, t | 0 <= s < t < |st.slots| && st.slots[s].Live? && st.slots[t].Live? ::
          st.slots[s].id != st.slots[t].id)
  }

  /** What the watcher remembers of a pod is still true of it, if it is still there. */
  predicate ItemTrue(slots: seq<Place>, nextId: nat, it: StoredPod) {
    && it.id < nextId
    && forall s | 0 <= s < |slots| && slots[s].Live? && slots[s].id == it.id :: slots[s].pod == it.pod
  }

  ghost predicate ItemsTrue(st: State) {
    st.worker.Passing? ==> forall i | 0 <= i < |st.worker.items| :: ItemTrue(st.slots, st.nextId, st.worker.items[i])
  }

  ghost predicate Consistent(w: World, st: State) {
    && |st.slots| == |st.deletions| == |w.templates|
    && UniqueIds(st) && ItemsTrue(st)
    && (st.worker.Passing? ==> st.worker.desired == st.holder && st.holder != "")
  }

  ghost predicate HashOf(w: World, past: set<string>, hash: string) {
    exists b :: b in past && w.sha(b) == hash
  }

  /** The bundle, the one just read and the one behind the holder's hash all were current at some time. */
  ghost predicate TracedHolder(w: World, st: State) {
    && (st.bundle.Some? ==> st.bundle.value in st.past)
    && (st.worker.Fetched? ==> st.worker.bundle in st.past)
    && (st.holder == "" || HashOf(w, st.past, st.holder))
  }

  /** Where hashes come from; pods with an id below `base` were there before the webhook. */
  ghost predicate Traced(w: World, base: nat, st: State) {
    && base <= st.nextId
    && TracedHolder(w, st)
    && forall s | 0 <= s < |st.slots| <= |w.templates| :: TracedSlot(w, base, st.past, st.slots[s], w.templates[s])
  }

  lemma StepUniqueIds(w: World, st: State, e: Event)
    requires Enabled(w, st, e) && UniqueIds(st)
    ensures UniqueIds(Exec(w, st, e))
  {
    hide Stale, Admissible, Lists;
  }

  lemma ItemStaysTrue(w: World, st: State, e: Event, it: StoredPod)
    requires Enabled(w, st, e) && ItemTrue(st.slots, st.nextId, it)
    ensures ItemTrue(Exec(w, st, e).slots, Exec(w, st, e).nextId, it)
  {
    hide Stale, Admissible, Lists;
  }

  lemma ListedIsTrue(st: State, ns: string, items: seq<StoredPod>, i: nat)
    requires UniqueIds(st) && Lists(st, ns, items) && i < |items|
    ensures ItemTrue(st.slots, st.nextId, items[i])
  {
    var t :| LiveAs(st, t, items[i]);
  }

  lemma StepItemsTrue(w: World, st: State, e: Event)
    requires Enabled(w, st, e) && UniqueIds(st) && ItemsTrue(st)
    ensures ItemsTrue(Exec(w, st, e))
  {
    hide Stale, Admissible, ItemTrue;
    var next := Exec(w, st, e);
    if next.worker.Passing? {
      forall i | 0 <= i < |next.worker.items|
        ensures ItemTrue(next.slots, next.nextId, next.worker.items[i])
      {
        if e.ListPods? {
          ListedIsTrue(st, st.worker.todo[0], e.items, i);
        } else {
          var it := next.worker.items[i];
          assert it == st.worker.items[i] || it == st.worker.items[i + 1];
          ItemStaysTrue(w, st, e, it);
        }
      }
    }
  }

  lemma StepConsistent(w: World, st: State, e: Event)
    requires ValidWorld(w) && Consistent(w, st) && Enabled(w, st, e)
    ensures Consistent(w, Exec(w, st, e))
  {
    hide Stale, Admissible, UniqueIds, ItemsTrue;
    StepUniqueIds(w, st, e);
    StepItemsTrue(w, st, e);
  }

  /** The pod still has the hash its template brought. */
  predicate OwnHash(template: PodData, pod: PodData) {
    CTBHashPresent(template.annotations) && Lookup(pod.annotations, CTB_HASH) == Lookup(template.annotations, CTB_HASH)
  }

  lemma AdmissibleHash(w: World, hash: string, template: PodData, pod: PodData)
    requires ValidWorld(w) && Admissible(w, hash, template, pod)
    ensures CTBHashPresent(pod.annotations) ==>
              (hash != "" && Lookup(pod.annotations, CTB_HASH) == hash) || OwnHash(template, pod)
  {
    var c: Setting :| AdmittedAs(w, hash, template, pod, c);
    AdmittedHash(w.defaulters, c.cfgs, w.at, template,
      Admission(c.nsAnnotations, w.pullSecret, w.landscape, hash));
  }

  lemma AdmissibleUpToDate(w: World, hash: string, s: nat, pod: PodData)
    requires ValidWorld(w) && Settled(w, s) && Admissible(w, hash, w.templates[s], pod) && hash != ""
    ensures !Stale(pod, hash)
  {
    var template := w.templates[s];
    var c: Setting :| AdmittedAs(w, hash, template, pod, c);
    assert KeepsPace(w, template, c);
    AdmittedUpToDate(w.defaulters, c.cfgs, w.at, template,
      Admission(c.nsAnnotations, w.pullSecret, w.landscape, hash));
  }

  ghost predicate TracedSlot(w: World, base: nat, past: set<string>, place: Place, template: PodData) {
    (place.InFlight? || (place.Live? && place.id >= base)) && CTBHashPresent(place.pod.annotations)
    ==> HashOf(w, past, Lookup(place.pod.annotations, CTB_HASH)) || OwnHash(template, place.pod)
  }

  lemma PastGrows(w: World, past: set<string>, more: set<string>)
    requires past <= more
    ensures forall hash | HashOf(w, past, hash) :: HashOf(w, more, hash)
  {
    forall hash | HashOf(w, past, hash)
      ensures HashOf(w, more, hash)
    {
      var b :| b in past && w.sha(b) == hash;
      assert b in more;
    }
  }

  /** Only an admission brings a new pod into a slot. */
  lemma SlotAfter(w: World, st: State, e: Event, s: nat)
    requires s < |st.slots|
    ensures var now := Exec(w, st, e).slots[s];
            || now == st.slots[s] || now.Vacant?
            || (e.AdmitRead? && e.slot == s && now == InFlight(e.pod))
            || (e.Persist? && st.slots[s].InFlight? && now == Live(st.nextId, st.slots[s].pod))
    ensures |Exec(w, st, e).slots| == |st.slots| && st.past <= Exec(w, st, e).past
  {
  }

  lemma AdmissionIsAdmissible(w: World, st: State, e: Event)
    requires Enabled(w, st, e) && e.AdmitRead?
    ensures e.slot < |w.templates| && Admissible(w, st.holder, w.templates[e.slot], e.pod)
  {
    hide Admissible;
  }

  lemma DeletionsAfter(w: World, st: State, e: Event)
    ensures Exec(w, st, e).deletions == if e.DeletePod? then Counted(st.deletions, e.slot) else st.deletions
  {
  }

  lemma StepTracedSlot(w: World, base: nat, st: State, e: Event, s: nat)
    requires ValidWorld(w) && Consistent(w, st) && Traced(w, base, st) && Enabled(w, st, e) && s < |st.slots|
    ensures TracedSlot(w, base, Exec(w, st, e).past, Exec(w, st, e).slots[s], w.templates[s])
  {
    hide Admissible, HashOf, UniqueIds, ItemsTrue, Exec, Enabled, ValidWorld, OwnHash;
    SlotAfter(w, st, e, s);
    PastGrows(w, st.past, Exec(w, st, e).past);
    if e.AdmitRead? && e.slot == s {
      AdmissionIsAdmissible(w, st, e);
      AdmissibleHash(w, st.holder, w.templates[s], e.pod);
    }
  }

  lemma StepTracedHolder(w: World, st: State, e: Event)
    requires Enabled(w, st, e) && TracedHolder(w, st)
    ensures TracedHolder(w, Exec(w, st, e))
  {
    hide Stale, Admissible, Lists;
    PastGrows(w, st.past, Exec(w, st, e).past);
  }

  lemma StepTraced(w: World, base: nat, st: State, e: Event)
    requires ValidWorld(w) && Consistent(w, st) && Traced(w, base, st) && Enabled(w, st, e)
    ensures Traced(w, base, Exec(w, st, e))
  {
    hide Stale, Admissible, Settled, Enabled, UniqueIds, ItemsTrue, TracedHolder, TracedSlot;
    StepTracedHolder(w, st, e);
    forall s | 0 <= s < |st.slots|
      ensures TracedSlot(w, base, Exec(w, st, e).past, Exec(w, st, e).slots[s], w.templates[s])
    {
      StepTracedSlot(w, base, st, e, s);
    }
  }

  lemma {:induction false} RunKeepsInvariants(w: World, base: nat, st: State, es: seq<Event>)
    requires ValidWorld(w) && Consistent(w, st) && Traced(w, base, st) && CanRun(w, st, es)
    ensures Consistent(w, Run(w, st, es)) && Traced(w, base, Run(w, st, es))
    decreases |es|
  {
    hide Enabled, Exec, Consistent, Traced;
    if es != [] {
      StepConsistent(w, st, es[0]);
      StepTraced(w, base, st, es[0]);
      RunKeepsInvariants(w, base, Exec(w, st, es[0]), es[1..]);
    }
  }

  /** A cluster before the process starts: pods of any kind, an empty holder, an idle watcher, no history. */
  ghost predicate Initial(w: World, st: State) {
    && Consistent(w, st) && st.holder == "" && st.worker.Idle? && st.changes == 0
    && (forall n | n in st.deletions :: n == 0)
    && (st.bundle.Some? ==> st.bundle.value in st.past)
    && (forall place | place in st.slots :: !place.InFlight?)
  }

  /**
   * Safety of every run: the holder is empty or the hash of a bundle there was; the hash on every pod the webhook
   * admitted is one too, or its template's own; and a pass always wants the holder's hash, which is not empty then.
   */
  lemma HashesAreGenuine(w: World, st: State, es: seq<Event>)
    requires ValidWorld(w) && Initial(w, st) && CanRun(w, st, es)
    ensures Consistent(w, Run(w, st, es)) && Traced(w, st.nextId, Run(w, st, es))
  {
    RunKeepsInvariants(w, st.nextId, st, es);
  }

  // ===== restarts per change of the hash =====

  predicate StaleAt(st: State, s: nat) {
    s < |st.slots| && !st.slots[s].Vacant? && Stale(st.slots[s].pod, st.holder)
  }

  /** The restarts counted for a slot. */
  function Restarts(st: State, s: nat): nat {
    if s < |st.deletions| then st.deletions[s] else 0
  }

  /** deletions of a slot, plus one when the pod it has now is due */
  function Due(st: State, s: nat): nat
    requires s < |st.deletions|
  {
    st.deletions[s] + if StaleAt(st, s) then 1 else 0
  }

  /** The hash and the count of its changes go together, and a change is not a deletion. */
  lemma StepCounts(w: World, st: State, e: Event)
    requires Enabled(w, st, e)
    ensures var next := Exec(w, st, e);
            && st.changes <= next.changes <= st.changes + 1
            && |next.deletions| == |st.deletions|
            && (next.changes == st.changes <==> next.holder == st.holder)
            && (next.changes != st.changes ==> next.deletions == st.deletions && next.holder != "")
  {
    hide Stale, Admissible, Lists;
  }

  /** While the hash stays, no slot becomes stale, and a deletion clears one that was. */
  lemma StepDue(w: World, st: State, e: Event, s: nat)
    requires ValidWorld(w) && Consistent(w, st) && Enabled(w, st, e)
    requires s < |w.templates| && Settled(w, s)
    requires Exec(w, st, e).holder == st.holder != ""
    ensures StaleAt(Exec(w, st, e), s) ==> StaleAt(st, s)
    ensures |Exec(w, st, e).deletions| == |st.deletions| && Due(Exec(w, st, e), s) <= Due(st, s)
  {
    hide Stale, Admissible, Settled, UniqueIds, ItemsTrue, ValidWorld, Exec, Enabled;
    SlotAfter(w, st, e, s);
    DeletionsAfter(w, st, e);
    if e.AdmitRead? && e.slot == s {
      AdmissionIsAdmissible(w, st, e);
      AdmissibleUpToDate(w, st.holder, s, e.pod);
    }
    if e.DeletePod? {
      DeleteClears(w, st, e);
    }
  }

  lemma DeleteClears(w: World, st: State, e: Event)
    requires Consistent(w, st) && Enabled(w, st, e) && e.DeletePod?
    ensures StaleAt(st, e.slot) && !StaleAt(Exec(w, st, e), e.slot)
  {
    hide Stale, Admissible, Settled;
    assert st.worker.items[0] in st.worker.items;
  }

  /** The count of changes only grows, and the hash stays while it does not. */
  lemma {:induction false} RunCounts(w: World, st: State, es: seq<Event>)
    requires CanRun(w, st, es)
    ensures st.changes <= Run(w, st, es).changes
    ensures Run(w, st, es).changes == st.changes ==> Run(w, st, es).holder == st.holder
    decreases |es|
  {
    hide Enabled, Exec;
    if es != [] {
      StepCounts(w, st, es[0]);
      RunCounts(w, Exec(w, st, es[0]), es[1..]);
    }
  }

  lemma {:induction false} RunDue(w: World, st: State, es: seq<Event>, s: nat)
    requires ValidWorld(w) && Consistent(w, st) && CanRun(w, st, es)
    requires s < |w.templates| && Settled(w, s)
    ensures Consistent(w, Run(w, st, es))
    ensures st.holder != "" && Run(w, st, es).changes == st.changes ==> Due(Run(w, st, es), s) <= Due(st, s)
    decreases |es|
  {
    hide Enabled, Exec, Consistent, StaleAt;
    if es != [] {
      StepConsistent(w, st, es[0]);
      StepCounts(w, st, es[0]);
      if Exec(w, st, es[0]).holder == st.holder != "" {
        StepDue(w, st, es[0], s);
      }
      RunCounts(w, Exec(w, st, es[0]), es[1..]);
      RunDue(w, Exec(w, st, es[0]), es[1..], s);
    }
  }

  /** Between two changes of the published hash a slot is restarted at most once. */
  lemma OneRestartPerHash(w: World, st: State, es: seq<Event>, s: nat)
    requires ValidWorld(w) && Consistent(w, st) && CanRun(w, st, es) && st.holder != ""
    requires s < |w.templates| && Settled(w, s)
    requires Run(w, st, es).changes == st.changes
    ensures Restarts(Run(w, st, es), s) <= Restarts(st, s) + 1
  {
    hide Stale, Settled, Enabled, Exec, Run;
    RunDue(w, st, es, s);
  }

  /** The bookkeeping behind the total: nothing happens before the first hash, then every slot is covered. */
  ghost predicate Paid(w: World, st: State, s: nat) {
    && s < |st.deletions|
    && (st.holder == "" ==> st.deletions[s] == 0)
    && (st.holder != "" ==> Due(st, s) <= st.changes)
  }

  lemma StepPaid(w: World, st: State, e: Event, s: nat)
    requires ValidWorld(w) && Consistent(w, st) && Enabled(w, st, e) && Paid(w, st, s)
    requires s < |w.templates| && Settled(w, s)
    ensures Paid(w, Exec(w, st, e), s)
  {
    hide Stale, Admissible, Settled, UniqueIds, ItemsTrue, ValidWorld, Exec, Enabled;
    StepCounts(w, st, e);
    if Exec(w, st, e).holder != st.holder {
    } else if st.holder != "" {
      StepDue(w, st, e, s);
    } else {
      NoPassWithoutHash(w, st, e);
    }
  }

  lemma NoPassWithoutHash(w: World, st: State, e: Event)
    requires Consistent(w, st) && Enabled(w, st, e) && st.holder == ""
    ensures !e.DeletePod? && (Exec(w, st, e).deletions == st.deletions)
  {
    hide Stale, Admissible, Settled, UniqueIds, ItemsTrue;
  }

  lemma {:induction false} RunPaid(w: World, st: State, es: seq<Event>, s: nat)
    requires ValidWorld(w) && Consistent(w, st) && CanRun(w, st, es) && Paid(w, st, s)
    requires s < |w.templates| && Settled(w, s)
    ensures Consistent(w, Run(w, st, es)) && Paid(w, Run(w, st, es), s)
    decreases |es|
  {
    hide Enabled, Exec, Consistent, Paid;
    if es != [] {
      StepConsistent(w, st, es[0]);
      StepPaid(w, st, es[0], s);
      RunPaid(w, Exec(w, st, es[0]), es[1..], s);
    }
  }

  /** Over a whole run a slot is restarted at most as often as the published hash changed. */
  lemma RestartsBoundedByChanges(w: World, st: State, es: seq<Event>, s: nat)
    requires ValidWorld(w) && Initial(w, st) && CanRun(w, st, es)
    requires s < |w.templates| && Settled(w, s)
    ensures Restarts(Run(w, st, es), s) <= Run(w, st, es).changes
  {
    hide Stale, Settled, Enabled, Exec, Run;
    assert st.deletions[s] in st.deletions;
    RunPaid(w, st, es, s);
  }

  function Sum(ns: seq<nat>): nat {
    if ns == [] then 0 else ns[0] + Sum(ns[1..])
  }

  /** Every slot keeps pace. */
  ghost predicate AllSettled(w: World) {
    forall s | 0 <= s < |w.templates| :: Settled(w, s)
  }

  lemma {:induction false} SumBound(ns: seq<nat>, bound: nat)
    requires forall i | 0 <= i < |ns| :: ns[i] <= bound
    ensures Sum(ns) <= |ns| * bound
  {
    if ns != [] {
      SumBound(ns[1..], bound);
      assert |ns| * bound == |ns[1..]| * bound + bound;
    }
  }

  /** All deletions of a run together: at most slots times hash changes. */
  lemma TotalRestartsBounded(w: World, st: State, es: seq<Event>)
    requires ValidWorld(w) && Initial(w, st) && CanRun(w, st, es)
    requires AllSettled(w)
    ensures Sum(Run(w, st, es).deletions) <= |w.templates| * Run(w, st, es).changes
  {
    hide Stale, Admissible, Settled, Enabled, Exec, Run, CanRun;
    RunKeepsInvariants(w, st.nextId, st, es);
    forall s | 0 <= s < |w.templates|
      ensures Run(w, st, es).deletions[s] <= Run(w, st, es).changes
    {
      RestartsBoundedByChanges(w, st, es, s);
    }
    SumBound(Run(w, st, es).deletions, Run(w, st, es).changes);
  }

  // ===== convergence =====

  /** The slots a pass has work on. */
  function StaleSlots(st: State): set<nat> {
    set s | 0 <= s < |st.slots| && StaleAt(st, s)
  }

  function StaleMarks(st: State): seq<nat> {
    seq(|st.slots|, s requires 0 <= s < |st.slots| => if StaleAt(st, s) then 1 else 0)
  }

  function Dues(st: State): (ds: seq<nat>)
    requires |st.slots| == |st.deletions|
    ensures |ds| == |st.slots|
  {
    seq(|st.slots|, s requires 0 <= s < |st.slots| => Due(st, s))
  }

  lemma {:induction false} SumMonotone(xs: seq<nat>, ys: seq<nat>)
    requires |xs| == |ys| && forall i | 0 <= i < |xs| :: xs[i] <= ys[i]
    ensures Sum(xs) <= Sum(ys)
  {
    if xs != [] {
      SumMonotone(xs[1..], ys[1..]);
    }
  }

  lemma {:induction false} SumAdds(xs: seq<nat>, ys: seq<nat>, zs: seq<nat>)
    requires |xs| == |ys| == |zs| && forall i | 0 <= i < |xs| :: zs[i] == xs[i] + ys[i]
    ensures Sum(zs) == Sum(xs) + Sum(ys)
  {
    if xs != [] {
      SumAdds(xs[1..], ys[1..], zs[1..]);
    }
  }

  /** Once the hash stays, the stale slots only become fewer, and each deletion takes one of them away. */
  lemma StaleSlotsShrink(w: World, st: State, e: Event)
    requires ValidWorld(w) && Consistent(w, st) && Enabled(w, st, e) && st.holder != ""
    requires AllSettled(w)
    requires Exec(w, st, e).holder == st.holder
    ensures StaleSlots(Exec(w, st, e)) <= StaleSlots(st)
    ensures e.DeletePod? ==> StaleSlots(Exec(w, st, e)) < StaleSlots(st)
    ensures e.Leave? && StaleAt(st, e.slot) ==> StaleSlots(Exec(w, st, e)) < StaleSlots(st)
  {
    hide Stale, Admissible, Settled;
    var next := Exec(w, st, e);
    forall s | s in StaleSlots(next)
      ensures s in StaleSlots(st)
    {
      StepDue(w, st, e, s);
    }
    if e.DeletePod? {
      DeleteClears(w, st, e);
      assert e.slot in StaleSlots(st) && e.slot !in StaleSlots(next);
    }
    if e.Leave? && StaleAt(st, e.slot) {
      assert e.slot in StaleSlots(st) && e.slot !in StaleSlots(next);
    }
  }

  lemma DuesSplit(st: State)
    requires |st.slots| == |st.deletions|
    ensures Sum(Dues(st)) == Sum(st.deletions) + Sum(StaleMarks(st))
  {
    SumAdds(st.deletions, StaleMarks(st), Dues(st));
  }

  lemma DuesShrink(w: World, st: State, es: seq<Event>)
    requires ValidWorld(w) && Consistent(w, st) && CanRun(w, st, es) && st.holder != ""
    requires AllSettled(w)
    requires Run(w, st, es).changes == st.changes
    ensures Consistent(w, Run(w, st, es)) && Sum(Dues(Run(w, st, es))) <= Sum(Dues(st))
  {
    hide Stale, Admissible, Settled, Enabled, Exec, Run, CanRun, StaleAt;
    var end := Run(w, st, es);
    RunConsistent(w, st, es);
    forall s | 0 <= s < |w.templates|
      ensures Due(end, s) <= Due(st, s)
    {
      RunDue(w, st, es, s);
    }
    SumMonotone(Dues(end), Dues(st));
  }

  /** Deletions made plus slots still stale never exceed the slots that were stale when the hash was published:
      that many deletions, and so that many passes that deleted something, can follow. */
  lemma WorkLeftBoundsDeletions(w: World, st: State, es: seq<Event>)
    requires ValidWorld(w) && Consistent(w, st) && CanRun(w, st, es) && st.holder != ""
    requires AllSettled(w)
    requires Run(w, st, es).changes == st.changes
    ensures var end := Run(w, st, es);
            Sum(end.deletions) + Sum(StaleMarks(end)) <= Sum(st.deletions) + Sum(StaleMarks(st))
  {
    DuesShrink(w, st, es);
    DuesSplit(st);
    DuesSplit(Run(w, st, es));
  }

  lemma {:induction false} RunConsistent(w: World, st: State, es: seq<Event>)
    requires ValidWorld(w) && Consistent(w, st) && CanRun(w, st, es)
    ensures Consistent(w, Run(w, st, es))
    decreases |es|
  {
    hide Enabled, Exec, Consistent;
    if es != [] {
      StepConsistent(w, st, es[0]);
      RunConsistent(w, Exec(w, st, es[0]), es[1..]);
    }
  }

  // ----- what a clean pass achieves -----

  /** Everything that can happen during a pass except its being cut short or kept out of a namespace. */
  predicate Clean(e: Event) {
    !(e.SkipNamespace? || e.DeleteForbidden? || e.Abort? || e.Finish?)
  }

  /** The slot's pod is still ahead of the pass. */
  predicate OnTheWay(st: State, s: nat) {
    && s < |st.slots| && st.slots[s].Live? && st.worker.Passing?
    && (st.slots[s].pod.namespace in st.worker.todo || StoredPod(st.slots[s].id, st.slots[s].pod) in st.worker.items)
  }

  /** Every settled stale slot is one of `late`, or its pod is still on the pass's way. */
  ghost predicate Covered(w: World, st: State, late: set<nat>) {
    && st.worker.Passing?
    && forall s | 0 <= s < |st.slots| <= |w.templates| && Settled(w, s) && StaleAt(st, s) && s !in late ::
         OnTheWay(st, s)
  }

  /** During a pass a slot that is stale after a step was stale before it, with the same pod. */
  lemma StepKeepsStalePod(w: World, st: State, e: Event, s: nat)
    requires ValidWorld(w) && Consistent(w, st) && Enabled(w, st, e) && Clean(e) && st.worker.Passing?
    requires s < |w.templates| && Settled(w, s) && StaleAt(Exec(w, st, e), s)
    ensures StaleAt(st, s)
    ensures st.slots[s].Live? ==> Exec(w, st, e).slots[s] == st.slots[s]
  {
    hide Stale, Admissible, Settled;
    StepDue(w, st, e, s);
  }

  lemma StepCovered(w: World, st: State, e: Event, late: set<nat>)
    requires ValidWorld(w) && Consistent(w, st) && Enabled(w, st, e) && Clean(e) && Covered(w, st, late)
    ensures Covered(w, Exec(w, st, e), late)
  {
    hide Stale, Admissible, Settled, UniqueIds, ItemsTrue;
    var next := Exec(w, st, e);
    forall s | 0 <= s < |next.slots| && Settled(w, s) && StaleAt(next, s) && s !in late
      ensures OnTheWay(next, s)
    {
      StepKeepsStalePod(w, st, e, s);
      assert OnTheWay(st, s);
      StepKeepsOnTheWay(w, st, e, s);
    }
  }

  lemma InTail<T>(xs: seq<T>, x: T)
    requires x in xs && x != xs[0]
    ensures x in xs[1..]
  {
    var i :| 0 <= i < |xs| && xs[i] == x;
    assert xs[1..][i - 1] == x;
  }

  lemma StepKeepsOnTheWay(w: World, st: State, e: Event, s: nat)
    requires Consistent(w, st) && Enabled(w, st, e) && Clean(e) && st.worker.Passing?
    requires OnTheWay(st, s) && StaleAt(st, s) && s < |Exec(w, st, e).slots| && Exec(w, st, e).slots[s] == st.slots[s]
    ensures OnTheWay(Exec(w, st, e), s)
  {
    hide Stale, Admissible, Settled;
    var it := StoredPod(st.slots[s].id, st.slots[s].pod);
    if (e.KeepPod? || e.DeletePod? || e.PodGone?) && it in st.worker.items {
      assert LiveId(st, s, it.id);
      assert it != st.worker.items[0];
      InTail(st.worker.items, it);
    }
    if e.ListPods? && it.pod.namespace in st.worker.todo && it.pod.namespace != st.worker.todo[0] {
      InTail(st.worker.todo, it.pod.namespace);
    }
  }

  lemma {:induction false} RunCovered(w: World, st: State, es: seq<Event>, late: set<nat>)
    requires ValidWorld(w) && Consistent(w, st) && CanRun(w, st, es) && Covered(w, st, late)
    requires forall e | e in es :: Clean(e)
    ensures Covered(w, Run(w, st, es), late)
    decreases |es|
  {
    hide Enabled, Exec, Consistent, Covered;
    if es != [] {
      StepConsistent(w, st, es[0]);
      StepCovered(w, st, es[0], late);
      RunCovered(w, Exec(w, st, es[0]), es[1..], late);
    }
  }

  /** A pass over every namespace that has a pod: all that is stale is ahead, or not stored yet. */
  ghost predicate PassStart(st: State) {
    && st.worker.Passing? && st.worker.items == []
    && forall t | 0 <= t < |st.slots| && st.slots[t].Live? :: st.slots[t].pod.namespace in st.worker.todo
  }

  predicate PassEnd(st: State) {
    st.worker.Passing? && st.worker.todo == [] && st.worker.items == []
  }

  function LateComers(st: State): set<nat> {
    set t: nat | t < |st.slots| && st.slots[t].InFlight? && StaleAt(st, t)
  }

  lemma StartIsCovered(w: World, st: State)
    requires Consistent(w, st) && PassStart(st)
    ensures Covered(w, st, LateComers(st))
  {
    forall s | 0 <= s < |st.slots| && StaleAt(st, s) && s !in LateComers(st)
      ensures OnTheWay(st, s)
    {
    }
  }

  /**
   * A pass that is not cut short and not kept out anywhere: whatever happens meanwhile, a slot still stale at its
   * end had been admitted with an older hash before the pass began and was not stored yet when it began.
   */
  lemma CleanPassLeavesOnlyLateComers(w: World, st: State, es: seq<Event>, s: nat)
    requires ValidWorld(w) && Consistent(w, st) && CanRun(w, st, es)
    requires PassStart(st) && (forall e | e in es :: Clean(e)) && PassEnd(Run(w, st, es))
    requires s < |w.templates| && Settled(w, s) && StaleAt(Run(w, st, es), s)
    ensures s in LateComers(st)
  {
    hide Stale, Admissible, Settled, Enabled, Exec, UniqueIds, ItemsTrue, LateComers;
    RunConsistent(w, st, es);
    StartIsCovered(w, st);
    RunCovered(w, st, es, LateComers(st));
    assert !OnTheWay(Run(w, st, es), s);
  }

  /** With nothing stale nothing is deleted and nothing becomes stale, for as long as the hash stays. */
  lemma {:induction false} NothingStaleStaysQuiet(w: World, st: State, es: seq<Event>)
    requires ValidWorld(w) && Consistent(w, st) && CanRun(w, st, es) && st.holder != "" && AllSettled(w)
    requires StaleSlots(st) == {} && Run(w, st, es).changes == st.changes
    ensures StaleSlots(Run(w, st, es)) == {} && Run(w, st, es).deletions == st.deletions
    decreases |es|
  {
    hide Enabled, Exec, Consistent, StaleSlots, AllSettled, ValidWorld;
    if es != [] {
      var next := Exec(w, st, es[0]);
      StepConsistent(w, st, es[0]);
      StepCounts(w, st, es[0]);
      RunCounts(w, next, es[1..]);
      StaleSlotsShrink(w, st, es[0]);
      DeletionsAfter(w, st, es[0]);
      NothingStaleStaysQuiet(w, next, es[1..]);
    }
  }

  /**
   * A clean pass that began with no admission under way settles the rotation, whatever happens meanwhile: nothing is
   * stale at its end, and until the hash changes nothing becomes stale and no pod is deleted.
   */
  lemma CleanPassSettles(w: World, st: State, es: seq<Event>, fs: seq<Event>)
    requires ValidWorld(w) && Consistent(w, st) && CanRun(w, st, es) && AllSettled(w)
    requires PassStart(st) && (forall e | e in es :: Clean(e)) && PassEnd(Run(w, st, es)) && LateComers(st) == {}
    requires CanRun(w, Run(w, st, es), fs) && Run(w, Run(w, st, es), fs).changes == Run(w, st, es).changes
    ensures var end := Run(w, st, es);
            && StaleSlots(end) == {}
            && StaleSlots(Run(w, end, fs)) == {}
            && Run(w, end, fs).deletions == end.deletions
  {
    hide Settled, Enabled, Exec, Run, CanRun, UniqueIds, ItemsTrue, LateComers, StaleAt, PassStart, ValidWorld, Clean;
    var end := Run(w, st, es);
    RunConsistent(w, st, es);
    forall s | 0 <= s < |end.slots| && StaleAt(end, s)
      ensures false
    {
      CleanPassLeavesOnlyLateComers(w, st, es, s);
    }
    assert StaleSlots(end) == {};
    NothingStaleStaysQuiet(w, end, fs);
  }
}
