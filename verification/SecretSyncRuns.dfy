/** The pull-secret controller in its cluster: its own writes feed its queue, and others write too. */
module SecretSyncRuns {
  import opened Prelude
  import opened Features
  import opened SecretSync

  /** The cluster. lost are the namespaces whose copy the controller has no reason to look at: see Next. */
  datatype State = State(namespaces: set<string>, store: Store, lost: set<string>)

  datatype Event =
    | Process(req: Request, calls: Calls)
    | Resync
    | Write(ns: string, data: string)
    | Delete(ns: string)
    | AddNamespace(ns: string)
    | RemoveNamespace(ns: string)

  function MasterRequest(m: Master): Request {
    Request(m.namespace, m.name)
  }

  /** Names of real objects are not empty. */
  predicate ValidMaster(m: Master) {
    m.name != "" && m.namespace != ""
  }

  /** A list of namespaces, when it succeeds, holds exactly the cluster's, each once. */
  predicate ListsNamespaces(items: seq<NamespaceItem>, namespaces: set<string>) {
    && (forall i | 0 <= i < |items| :: items[i].namespace == "")
    && namespaces == set i | 0 <= i < |items| :: items[i].name
  }

  predicate Enabled(m: Master, st: State, e: Event) {
    match e
    case Process(req, calls) =>
      req in st.store.queue && (calls.namespaces.Ok? ==> ListsNamespaces(calls.namespaces.value, st.namespaces))
    case Write(ns, _) => ns in st.namespaces
    case AddNamespace(ns) => ns != "" && ns !in st.namespaces && ns !in st.store.copies
    case _ => true
  }

  predicate FeatureOn(calls: Calls) {
    calls.config.Ok? && SET_PULL_SECRET in calls.config.value.availableFeatures
  }

  /** The namespaces a request is about. */
  function Concerned(m: Master, req: Request, namespaces: set<string>): set<string> {
    match KindOf(m, req)
    case MasterUpdated => namespaces
    case Unhandled => {}
    case _ => {Target(m, req)}
  }

  /** The queue while a request is being processed: taken out, so that events may put it back. */
  function Taken(st: State, req: Request): Store {
    st.store.(queue := st.store.queue - {req})
  }

  /** A request that ends with an error is retried; one that is ignored because the feature is off is lost. */
  function Processed(m: Master, st: State, req: Request, calls: Calls): State {
    var (after, outcome) := Reconciled(m, Taken(st, req), req, 0, calls);
    if outcome.Failed? then st.(store := after.(queue := after.queue + {req}))
    else if !FeatureOn(calls) then st.(store := after, lost := st.lost + Concerned(m, req, st.namespaces))
    else st.(store := after, lost := st.lost - Concerned(m, req, st.namespaces))
  }

  /** A copy that someone else deletes raises no accepted event: the controller loses sight of it. */
  function Next(m: Master, st: State, e: Event): State {
    match e
    case Process(req, calls) => Processed(m, st, req, calls)
    case Resync => st.(store := st.store.(queue := st.store.queue + {MasterRequest(m)}))
    case Write(ns, data) => st.(store := Written(m, st.store, ns, data))
    case Delete(ns) =>
      State(st.namespaces,
            Store(st.store.copies - {ns}, Notified(m, st.store.queue, SecretDeleted(ns, m.name))),
            if ns == m.namespace then st.lost else st.lost + {ns})
    case AddNamespace(ns) =>
      st.(namespaces := st.namespaces + {ns},
          store := st.store.(queue := Notified(m, st.store.queue, NamespaceCreated(ns))))
    case RemoveNamespace(ns) =>
      State(st.namespaces - {ns},
            Store(st.store.copies - {ns}, Notified(m, st.store.queue, NamespaceDeleted(ns))), st.lost - {ns})
  }

  // ===== facts about synchronising =====

  predicate InSync(m: Master, s: Store, ns: string) {
    m.namespace in s.copies && ns in s.copies && s.copies[ns] == s.copies[m.namespace]
  }

  /** Every namespace of the list whose patch is answered well gets the data, every other copy stays, and the
      queue only grows. */
  lemma {:induction false} SynchronisedMeaning(m: Master, s: Store, items: seq<NamespaceItem>, n: nat, data: string,
                                               answer: Answer)
    requires n <= |items|
    ensures var r := Synchronised(m, s, items, n, data, answer);
            && s.queue <= r.queue
            && (forall ns :: ns in r.copies <==> ns in s.copies || Reached(m, items, n, answer, ns))
            && (forall ns | ns in r.copies ::
                    r.copies[ns] == if Reached(m, items, n, answer, ns) then data else s.copies[ns])
  {
    if n > 0 {
      SynchronisedMeaning(m, s, items, n - 1, data, answer);
      var item := items[n - 1];
      forall ns
        ensures Reached(m, items, n, answer, ns) <==>
                (Reached(m, items, n - 1, answer, ns)
                 || (ns == item.name && item.namespace != m.name && answer(ns).None?))
      {
      }
    }
  }

  predicate Reached(m: Master, items: seq<NamespaceItem>, n: nat, answer: Answer, ns: string)
    requires n <= |items|
  {
    exists i :: 0 <= i < n && items[i].name == ns && items[i].namespace != m.name && answer(ns).None?
  }

  lemma {:induction false} NoFailures(m: Master, items: seq<NamespaceItem>, n: nat, answer: Answer)
    requires n <= |items|
    ensures Failures(m, items, n, answer) == [] <==>
            forall i | 0 <= i < n && items[i].namespace != m.name :: answer(items[i].name).None?
  {
    if n > 0 {
      NoFailures(m, items, n - 1, answer);
    }
  }

  /** The controller never changes the master: it only ever writes the master's own data, also over the master. */
  lemma MasterUntouched(m: Master, s: Store, req: Request, interval: int, calls: Calls)
    requires m.namespace in s.copies
    ensures var (r, _) := Reconciled(m, s, req, interval, calls);
            m.namespace in r.copies && r.copies[m.namespace] == s.copies[m.namespace]
  {
    if calls.namespaces.Ok? {
      var items := calls.namespaces.value;
      SynchronisedMeaning(m, s, items, |items|, s.copies[m.namespace], calls.patch);
    }
  }

  // ===== no update is lost =====

  /** Some request in the queue will look at the namespace. */
  predicate Pending(m: Master, queue: set<Request>, ns: string) {
    MasterRequest(m) in queue || Request(ns, m.name) in queue || Request("", ns) in queue
  }

  ghost predicate Covered(m: Master, st: State, ns: string) {
    m.namespace in st.store.copies && ns in st.namespaces ==>
      ns in st.lost || InSync(m, st.store, ns) || Pending(m, st.store.queue, ns)
  }

  ghost predicate Inv(m: Master, st: State) {
    "" !in st.namespaces && forall ns :: Covered(m, st, ns)
  }

  /** One processed request: what it means for a namespace. */
  lemma ProcessCovers(m: Master, st: State, req: Request, calls: Calls, ns: string)
    requires ValidMaster(m) && Covered(m, st, ns) && ns != "" && Enabled(m, st, Process(req, calls))
    ensures Covered(m, Processed(m, st, req, calls), ns)
  {
    var s := Taken(st, req);
    if FeatureOn(calls) && m.namespace in s.copies && ns in st.namespaces {
      MasterUntouched(m, s, req, 0, calls);
      match KindOf(m, req) {
        case MasterUpdated => MasterPassCovers(m, st, req, calls, ns);
        case Unhandled =>
        case _ => OnePatchCovers(m, st, req, calls, ns);
      }
    }
  }

  lemma MasterPassCovers(m: Master, st: State, req: Request, calls: Calls, ns: string)
    requires ValidMaster(m) && Enabled(m, st, Process(req, calls)) && FeatureOn(calls)
    requires KindOf(m, req).MasterUpdated? && m.namespace in st.store.copies && ns in st.namespaces
    ensures Covered(m, Processed(m, st, req, calls), ns)
  {
    var s := Taken(st, req);
    if calls.namespaces.Ok? {
      var items := calls.namespaces.value;
      NoFailures(m, items, |items|, calls.patch);
      SynchronisedMeaning(m, s, items, |items|, s.copies[m.namespace], calls.patch);
      if Failures(m, items, |items|, calls.patch) == [] {
        var i :| 0 <= i < |items| && items[i].name == ns;
        assert Reached(m, items, |items|, calls.patch, ns);
      }
    }
  }

  lemma OnePatchCovers(m: Master, st: State, req: Request, calls: Calls, ns: string)
    requires ValidMaster(m) && Covered(m, st, ns) && ns != "" && Enabled(m, st, Process(req, calls)) && FeatureOn(calls)
    requires KindOf(m, req).CopyUpdated? || KindOf(m, req).NamespaceNew?
    requires m.namespace in st.store.copies && ns in st.namespaces
    ensures Covered(m, Processed(m, st, req, calls), ns)
  {
  }

  lemma StepCovers(m: Master, st: State, e: Event)
    requires ValidMaster(m) && Inv(m, st) && Enabled(m, st, e)
    ensures Inv(m, Next(m, st, e))
  {
    forall ns
      ensures Covered(m, Next(m, st, e), ns)
    {
      assert Covered(m, st, ns);
      if e.Process? && ns != "" {
        ProcessCovers(m, st, e.req, e.calls, ns);
      }
    }
  }

  predicate CanRun(m: Master, st: State, es: seq<Event>)
    decreases |es|
  {
    es != [] ==> Enabled(m, st, es[0]) && CanRun(m, Next(m, st, es[0]), es[1..])
  }

  function Run(m: Master, st: State, es: seq<Event>): State
    decreases |es|
  {
    if es == [] then st else Run(m, Next(m, st, es[0]), es[1..])
  }

  /** What the informers report when the process starts: everything there is, as created. */
  function FirstRequests(m: Master, namespaces: set<string>, copies: map<string, string>): set<Request> {
    (set ns | ns in copies && Accepted(m, SecretCreated(ns, m.name)) :: RequestFor(SecretCreated(ns, m.name)))
    + (set ns | ns in namespaces && Accepted(m, NamespaceCreated(ns)) :: RequestFor(NamespaceCreated(ns)))
  }

  /** The process starts in any cluster, with copies of any content anywhere. */
  function Started(m: Master, namespaces: set<string>, copies: map<string, string>): State {
    State(namespaces, Store(copies, FirstRequests(m, namespaces, copies)), {})
  }

  lemma StartCovers(m: Master, namespaces: set<string>, copies: map<string, string>)
    requires "" !in namespaces
    ensures Inv(m, Started(m, namespaces, copies))
  {
    if m.namespace in copies {
      assert Accepted(m, SecretCreated(m.namespace, m.name));
      assert MasterRequest(m) in FirstRequests(m, namespaces, copies);
    }
  }

  lemma {:induction false} RunCovers(m: Master, st: State, es: seq<Event>)
    requires ValidMaster(m) && Inv(m, st) && CanRun(m, st, es)
    ensures Inv(m, Run(m, st, es))
    decreases |es|
  {
    if es != [] {
      StepCovers(m, st, es[0]);
      RunCovers(m, Next(m, st, es[0]), es[1..]);
    }
  }

  /** The two ways to lose sight of a namespace: its copy is deleted, or a request about it meets a switched-off
      feature. */
  predicate LosesSight(m: Master, e: Event, ns: string) {
    match e
    case Delete(d) => d == ns && ns != m.namespace
    case Process(req, calls) =>
      calls.config.Ok? && !FeatureOn(calls) && (KindOf(m, req).MasterUpdated? || ns in Concerned(m, req, {}))
    case _ => false
  }

  lemma {:induction false} LostOnlyBy(m: Master, st: State, es: seq<Event>, ns: string)
    requires ns in Run(m, st, es).lost
    ensures ns in st.lost || exists i :: 0 <= i < |es| && LosesSight(m, es[i], ns)
    decreases |es|
  {
    if es != [] {
      var rest := es[1..];
      LostOnlyBy(m, Next(m, st, es[0]), rest, ns);
      if ns in Next(m, st, es[0]).lost {
        assert ns in st.lost || LosesSight(m, es[0], ns);
      } else {
        var i :| 0 <= i < |rest| && LosesSight(m, rest[i], ns);
        assert LosesSight(m, es[i + 1], ns);
      }
    }
  }

  /**
   * Over any run from the start of the process in any cluster, whoever writes and however often patches fail: when the
   * queue is empty, every namespace has the master's data, except those the controller has lost sight of, because their
   * copy was deleted or a request about them was ignored during the run.
   */
  lemma NoUpdateIsLost(m: Master, namespaces: set<string>, copies: map<string, string>, es: seq<Event>)
    requires ValidMaster(m) && "" !in namespaces && CanRun(m, Started(m, namespaces, copies), es)
    ensures var end := Run(m, Started(m, namespaces, copies), es);
            end.store.queue == {} && m.namespace in end.store.copies ==>
              forall ns | ns in end.namespaces && ns !in end.lost :: InSync(m, end.store, ns)
    ensures var end := Run(m, Started(m, namespaces, copies), es);
            forall ns | ns in end.lost :: exists i :: 0 <= i < |es| && LosesSight(m, es[i], ns)
  {
    var st := Started(m, namespaces, copies);
    StartCovers(m, namespaces, copies);
    RunCovers(m, st, es);
    var end := Run(m, st, es);
    forall ns | ns in end.namespaces && ns !in end.lost
      ensures end.store.queue == {} && m.namespace in end.store.copies ==> InSync(m, end.store, ns)
    {
      assert Covered(m, end, ns);
    }
    forall ns | ns in end.lost
      ensures exists i :: 0 <= i < |es| && LosesSight(m, es[i], ns)
    {
      LostOnlyBy(m, st, es, ns);
    }
  }

  /** Idle, and every namespace has the master's data. */
  ghost predicate AtRest(m: Master, st: State) {
    st.store.queue == {} && AllInSync(m, st)
  }

  ghost predicate AllInSync(m: Master, st: State) {
    m.namespace in st.store.copies && forall ns | ns in st.namespaces :: InSync(m, st.store, ns)
  }

  /** The one event after which a controller at rest stays idle although a namespace is out of step: someone deletes the
      copy of an existing namespace. */
  lemma LossIff(m: Master, st: State, e: Event)
    requires ValidMaster(m) && "" !in st.namespaces && AtRest(m, st) && Enabled(m, st, e)
    requires m.namespace in Next(m, st, e).store.copies
    ensures var next := Next(m, st, e);
            (next.store.queue == {} && !AllInSync(m, next)) <==> (e.Delete? && e.ns in st.namespaces)
  {
    var next := Next(m, st, e);
    if e.Delete? && e.ns in st.namespaces {
      assert !InSync(m, next.store, e.ns);
    }
  }

  /** A request that does not fail puts the namespaces it is about right exactly when the feature is on, unless they
      were right before. */
  lemma IgnoredIff(m: Master, st: State, req: Request, calls: Calls)
    requires ValidMaster(m) && Enabled(m, st, Process(req, calls))
    requires !Reconciled(m, Taken(st, req), req, 0, calls).1.Failed?
    ensures var next := Processed(m, st, req, calls);
            (forall ns | ns in Concerned(m, req, st.namespaces) :: InSync(m, next.store, ns)) <==>
            (FeatureOn(calls) || forall ns | ns in Concerned(m, req, st.namespaces) :: InSync(m, st.store, ns))
  {
    if FeatureOn(calls) {
      MasterUntouched(m, Taken(st, req), req, 0, calls);
      if KindOf(m, req).MasterUpdated? {
        MasterPassRepairs(m, st, calls);
      }
    }
  }

  /** The exemption is needed: a deleted copy raises no work, so an idle controller stays idle and the namespace stays
      without its copy. */
  lemma DeletedCopyIsLost(m: Master, st: State, ns: string)
    requires st.store.queue == {} && ns != m.namespace
    ensures var next := Next(m, st, Delete(ns));
            next.store.queue == {} && ns in next.lost && !InSync(m, next.store, ns)
  {
  }

  /** Such a run from the start of the process: the only other namespace gets its copy, loses it, and stays without. */
  lemma LossWitness(m: Master, ns: string, data: string, calls: Calls) returns (es: seq<Event>)
    requires ValidMaster(m) && ns != "" && ns != m.namespace && FeatureOn(calls)
    requires calls.namespaces == Ok([NamespaceItem(m.namespace, ""), NamespaceItem(ns, "")])
    requires calls.masterRead.None? && calls.patch(m.namespace).None? && calls.patch(ns).None?
    ensures CanRun(m, Started(m, {m.namespace, ns}, map[m.namespace := data]), es)
    ensures var end := Run(m, Started(m, {m.namespace, ns}, map[m.namespace := data]), es);
            && end.store.queue == {} && m.namespace in end.store.copies
            && ns in end.namespaces && !InSync(m, end.store, ns)
  {
    var start := Started(m, {m.namespace, ns}, map[m.namespace := data]);
    var synced := State({m.namespace, ns}, Store(map[m.namespace := data, ns := data], {}), {});
    FirstRequestsOfTwo(m, ns, data);
    var copied := synced.(store := synced.store.(queue := {MasterRequest(m)}));
    BothListed(m, ns, calls.namespaces.value);
    NamespaceCopied(m, start, ns, data, calls);
    AlreadyInStep(m, copied, ns, data, calls);
    DeletedCopyIsLost(m, synced, ns);
    es := [Process(Request("", ns), calls), Process(MasterRequest(m), calls), Delete(ns)];
    ThreeSteps(m, start, copied, synced, es[0], es[1], es[2]);
  }

  lemma BothListed(m: Master, ns: string, items: seq<NamespaceItem>)
    requires items == [NamespaceItem(m.namespace, ""), NamespaceItem(ns, "")]
    ensures ListsNamespaces(items, {m.namespace, ns})
  {
    assert items[0].name == m.namespace && items[1].name == ns;
  }

  lemma FirstRequestsOfTwo(m: Master, ns: string, data: string)
    requires ns != m.namespace
    ensures FirstRequests(m, {m.namespace, ns}, map[m.namespace := data]) == {MasterRequest(m), Request("", ns)}
  {
    assert Accepted(m, SecretCreated(m.namespace, m.name)) && Accepted(m, NamespaceCreated(ns));
    assert !Accepted(m, NamespaceCreated(m.namespace));
  }

  /** The request of the new namespace is processed. */
  lemma NamespaceCopied(m: Master, st: State, ns: string, data: string, calls: Calls)
    requires ValidMaster(m) && ns != m.namespace && FeatureOn(calls) && calls.masterRead.None?
    requires calls.patch(ns).None?
    requires st == State({m.namespace, ns}, Store(map[m.namespace := data], {MasterRequest(m), Request("", ns)}), {})
    ensures Next(m, st, Process(Request("", ns), calls)) ==
            State({m.namespace, ns}, Store(map[m.namespace := data, ns := data], {MasterRequest(m)}), {})
  {
  }

  /** The master request is processed and finds both copies in step. */
  lemma AlreadyInStep(m: Master, st: State, ns: string, data: string, calls: Calls)
    requires ValidMaster(m) && ns != m.namespace && FeatureOn(calls)
    requires st == State({m.namespace, ns}, Store(map[m.namespace := data, ns := data], {MasterRequest(m)}), {})
    requires calls.namespaces == Ok([NamespaceItem(m.namespace, ""), NamespaceItem(ns, "")])
    requires calls.masterRead.None? && calls.patch(m.namespace).None? && calls.patch(ns).None?
    ensures Next(m, st, Process(MasterRequest(m), calls)) == st.(store := st.store.(queue := {}))
  {
    var items := calls.namespaces.value;
    var s := Taken(st, MasterRequest(m));
    assert Written(m, s, m.namespace, data) == s && Written(m, s, ns, data) == s;
    assert Synchronised(m, s, items, 1, data, calls.patch) == s;
    assert Synchronised(m, s, items, 2, data, calls.patch) == s;
    NoFailures(m, items, 2, calls.patch);
  }

  lemma ThreeSteps(m: Master, a: State, b: State, c: State, e1: Event, e2: Event, e3: Event)
    requires Enabled(m, a, e1) && Next(m, a, e1) == b
    requires Enabled(m, b, e2) && Next(m, b, e2) == c
    requires Enabled(m, c, e3)
    ensures CanRun(m, a, [e1, e2, e3]) && Run(m, a, [e1, e2, e3]) == Next(m, c, e3)
  {
    hide Enabled, Next;
    assert [e1, e2, e3][1..] == [e2, e3] && [e2, e3][1..] == [e3] && [e3][1..] == [];
    assert Run(m, c, [e3]) == Next(m, c, e3);
    assert CanRun(m, c, [e3]) && CanRun(m, b, [e2, e3]);
    assert Run(m, b, [e2, e3]) == Run(m, c, [e3]);
  }

  /** Nothing stays lost for good: a master request processed with success puts every namespace right. */
  lemma MasterPassRepairs(m: Master, st: State, calls: Calls)
    requires ValidMaster(m) && FeatureOn(calls) && Enabled(m, st, Process(MasterRequest(m), calls))
    requires !Reconciled(m, Taken(st, MasterRequest(m)), MasterRequest(m), 0, calls).1.Failed?
    ensures var next := Processed(m, st, MasterRequest(m), calls);
            && next.namespaces == st.namespaces && next.lost == st.lost - st.namespaces
            && forall ns | ns in st.namespaces :: InSync(m, next.store, ns)
  {
    var s := Taken(st, MasterRequest(m));
    MasterUntouched(m, s, MasterRequest(m), 0, calls);
    forall ns | ns in st.namespaces
      ensures InSync(m, Processed(m, st, MasterRequest(m), calls).store, ns)
    {
      var items := calls.namespaces.value;
      NoFailures(m, items, |items|, calls.patch);
      SynchronisedMeaning(m, s, items, |items|, s.copies[m.namespace], calls.patch);
      var i :| 0 <= i < |items| && items[i].name == ns;
      assert Reached(m, items, |items|, calls.patch, ns);
    }
  }

  // ===== the controller's own events die out =====

  /** Existing copies that differ from the master. */
  function OutOfSync(m: Master, s: Store): set<string> {
    set ns | ns in s.copies && m.namespace in s.copies && s.copies[ns] != s.copies[m.namespace]
  }

  function Work(m: Master, s: Store): nat {
    2 * |OutOfSync(m, s)| + |s.queue|
  }

  /** Writing the master's data somewhere never adds work: the event it may raise is paid by a copy put right. */
  lemma WriteAddsNoWork(m: Master, s: Store, ns: string)
    requires m.namespace in s.copies
    ensures var r := Written(m, s, ns, s.copies[m.namespace]);
            && Work(m, r) <= Work(m, s)
            && m.namespace in r.copies && r.copies[m.namespace] == s.copies[m.namespace]
  {
    var r := Written(m, s, ns, s.copies[m.namespace]);
    if ns in OutOfSync(m, s) {
      assert OutOfSync(m, r) == OutOfSync(m, s) - {ns};
      assert r.queue == s.queue + {Request(ns, m.name)};
    } else {
      assert OutOfSync(m, r) == OutOfSync(m, s);
      assert r.queue == s.queue;
    }
  }

  lemma {:induction false} SynchronisingAddsNoWork(m: Master, s: Store, items: seq<NamespaceItem>, n: nat,
                                                   answer: Answer)
    requires n <= |items| && m.namespace in s.copies
    ensures var r := Synchronised(m, s, items, n, s.copies[m.namespace], answer);
            && Work(m, r) <= Work(m, s)
            && m.namespace in r.copies && r.copies[m.namespace] == s.copies[m.namespace]
  {
    if n > 0 {
      SynchronisingAddsNoWork(m, s, items, n - 1, answer);
      WriteAddsNoWork(m, Synchronised(m, s, items, n - 1, s.copies[m.namespace], answer), items[n - 1].name);
    }
  }

  /** A request that is processed without an error takes work away, whatever its own writes put into the queue. */
  lemma ProcessingReducesWork(m: Master, st: State, req: Request, calls: Calls)
    requires Enabled(m, st, Process(req, calls)) && m.namespace in st.store.copies
    requires !Reconciled(m, Taken(st, req), req, 0, calls).1.Failed?
    ensures Work(m, Processed(m, st, req, calls).store) < Work(m, st.store)
  {
    var s := Taken(st, req);
    assert OutOfSync(m, s) == OutOfSync(m, st.store);
    assert Work(m, s) == Work(m, st.store) - 1;
    if calls.namespaces.Ok? {
      SynchronisingAddsNoWork(m, s, calls.namespaces.value, |calls.namespaces.value|, calls.patch);
    }
    WriteAddsNoWork(m, s, Target(m, req));
  }

  /** The controller alone, with the feature on and every call answered well. */
  predicate Undisturbed(m: Master, st: State, es: seq<Event>)
    decreases |es|
  {
    es != [] ==>
      && es[0].Process? && FeatureOn(es[0].calls)
      && !Reconciled(m, Taken(st, es[0].req), es[0].req, 0, es[0].calls).1.Failed?
      && Undisturbed(m, Next(m, st, es[0]), es[1..])
  }

  /** What a pending master request promises. */
  ghost predicate MasterDueOrDone(m: Master, st: State) {
    && m.namespace in st.store.copies
    && (MasterRequest(m) in st.store.queue || forall ns | ns in st.namespaces :: InSync(m, st.store, ns))
  }

  lemma StepKeepsPromise(m: Master, st: State, req: Request, calls: Calls)
    requires ValidMaster(m) && Enabled(m, st, Process(req, calls)) && FeatureOn(calls) && MasterDueOrDone(m, st)
    requires !Reconciled(m, Taken(st, req), req, 0, calls).1.Failed?
    ensures var next := Processed(m, st, req, calls);
            && MasterDueOrDone(m, next) && next.namespaces == st.namespaces
            && next.store.copies[m.namespace] == st.store.copies[m.namespace]
  {
    MasterUntouched(m, Taken(st, req), req, 0, calls);
    if KindOf(m, req).MasterUpdated? {
      MasterPassRepairs(m, st, calls);
    }
  }

  /**
   * The controller's self-triggered events die out: left alone it processes at most Work(start) requests, the master's
   * data stays, and once the queue is empty every namespace has it.
   */
  lemma {:induction false} SynchronisationCompletes(m: Master, st: State, es: seq<Event>)
    requires ValidMaster(m) && CanRun(m, st, es) && Undisturbed(m, st, es) && MasterDueOrDone(m, st)
    ensures var end := Run(m, st, es);
            && |es| <= Work(m, st.store) - Work(m, end.store)
            && m.namespace in end.store.copies && end.store.copies[m.namespace] == st.store.copies[m.namespace]
            && end.namespaces == st.namespaces
            && (end.store.queue == {} ==> forall ns | ns in st.namespaces :: InSync(m, end.store, ns))
    decreases |es|
  {
    if es != [] {
      ProcessingReducesWork(m, st, es[0].req, es[0].calls);
      StepKeepsPromise(m, st, es[0].req, es[0].calls);
      SynchronisationCompletes(m, Next(m, st, es[0]), es[1..]);
    }
  }
}
