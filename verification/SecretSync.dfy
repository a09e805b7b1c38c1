/** The pull-secret controller (internal/controller): which events it takes, and what one reconciliation does. */
module SecretSync {
  import opened Prelude
  import opened Features

  /** The master secret; the copies in other namespaces bear the same name. */
  datatype Master = Master(name: string, namespace: string)

  datatype Request = Request(namespace: string, name: string)

  /** What the watches report. data is the docker-config entry; a missing entry reads as the empty string. */
  datatype WatchEvent =
    | SecretCreated(namespace: string, name: string)
    | SecretUpdated(namespace: string, name: string, before: string, after: string)
    | SecretDeleted(namespace: string, name: string)
    | NamespaceCreated(namespace: string)
    | NamespaceUpdated(namespace: string)
    | NamespaceDeleted(namespace: string)

  /** The two event filters. */
  predicate Accepted(m: Master, e: WatchEvent) {
    match e
    case SecretCreated(namespace, name) => name == m.name && namespace == m.namespace
    case SecretUpdated(_, name, before, after) => name == m.name && before != after
    case SecretDeleted(_, _) => false
    case NamespaceCreated(namespace) => namespace != m.namespace
    case NamespaceUpdated(_) => false
    case NamespaceDeleted(_) => false
  }

  /** The request of an accepted event: the object's own name; a namespace has no namespace. */
  function RequestFor(e: WatchEvent): Request {
    match e
    case SecretCreated(namespace, name) => Request(namespace, name)
    case SecretUpdated(namespace, name, _, _) => Request(namespace, name)
    case SecretDeleted(namespace, name) => Request(namespace, name)
    case NamespaceCreated(namespace) => Request("", namespace)
    case NamespaceUpdated(namespace) => Request("", namespace)
    case NamespaceDeleted(namespace) => Request("", namespace)
  }

  function Notified(m: Master, queue: set<Request>, e: WatchEvent): set<Request> {
    if Accepted(m, e) then queue + {RequestFor(e)} else queue
  }

  /** The secrets called m.name by namespace, and the work queue, which holds a request at most once. */
  datatype Store = Store(copies: map<string, string>, queue: set<Request>)

  /** Writing a secret called m.name, whoever does it, and the event this causes. */
  function Written(m: Master, s: Store, ns: string, data: string): Store {
    var e := if ns in s.copies then SecretUpdated(ns, m.name, s.copies[ns], data) else SecretCreated(ns, m.name);
    Store(s.copies[ns := data], Notified(m, s.queue, e))
  }

  /** A namespace object; being cluster-scoped, its own namespace field is empty. */
  datatype NamespaceItem = NamespaceItem(name: string, namespace: string)

  /** How each patch is answered; None is success. */
  type Answer = string -> Option<ApiError>

  /** The secrets after the first n namespaces of a full synchronisation. */
  function Synchronised(m: Master, s: Store, items: seq<NamespaceItem>, n: nat, data: string, answer: Answer): Store
    requires n <= |items|
  {
    if n == 0 then s
    else
      var before := Synchronised(m, s, items, n - 1, data, answer);
      var item := items[n - 1];
      if item.namespace == m.name || answer(item.name).Some? then before else Written(m, before, item.name, data)
  }

  function Failures(m: Master, items: seq<NamespaceItem>, n: nat, answer: Answer): seq<ApiError>
    requires n <= |items|
  {
    if n == 0 then []
    else
      Failures(m, items, n - 1, answer)
      + if items[n - 1].namespace != m.name && answer(items[n - 1].name).Some?
          then [answer(items[n - 1].name).value] else []
  }

  /** The answers to the calls of one reconciliation; masterRead is a failure to read the master that is there. */
  datatype Calls = Calls(
    config: Result<Config, ApiError>,
    masterRead: Option<ApiError>,
    namespaces: Result<seq<NamespaceItem>, ApiError>,
    patch: Answer)

  datatype Outcome = Done | DoneAgainAfter(delay: int) | Failed(errors: seq<ApiError>)

  datatype Kind = MasterUpdated | CopyUpdated | NamespaceNew | Unhandled

  function KindOf(m: Master, req: Request): Kind {
    if req == Request(m.namespace, m.name) then MasterUpdated
    else if req.namespace != "" && req.namespace != m.namespace && req.name == m.name then CopyUpdated
    else if req.namespace == "" then NamespaceNew
    else Unhandled
  }

  /** The one namespace a request other than the master's is about. */
  function Target(m: Master, req: Request): string {
    if KindOf(m, req).CopyUpdated? then req.namespace else req.name
  }

  function PatchedOne(m: Master, s: Store, ns: string, data: string, answer: Answer): Store {
    if answer(ns).Some? then s else Written(m, s, ns, data)
  }

  /** The store after a reconciliation, and what it returns. */
  function Reconciled(m: Master, s: Store, req: Request, interval: int, calls: Calls): (r: (Store, Outcome)) {
    if calls.config.Err? then (s, Failed([calls.config.error]))
    else if SET_PULL_SECRET !in calls.config.value.availableFeatures then (s, Done)
    else if calls.masterRead.Some? then (s, Failed([calls.masterRead.value]))
    else if m.namespace !in s.copies then (s, Failed([NotFound]))
    else
      var data := s.copies[m.namespace];
      match KindOf(m, req)
      case MasterUpdated =>
        if calls.namespaces.Err? then (s, Failed([calls.namespaces.error]))
        else
          var items := calls.namespaces.value;
          var errors := Failures(m, items, |items|, calls.patch);
          (Synchronised(m, s, items, |items|, data, calls.patch),
           if errors != [] then Failed(errors) else DoneAgainAfter(interval))
      case Unhandled => (s, Done)
      case _ =>
        var ns := Target(m, req);
        (PatchedOne(m, s, ns, data, calls.patch),
         if calls.patch(ns).Some? then Failed([calls.patch(ns).value]) else Done)
  }

  // ===== the code =====

  class SecretReconciler {
    const master: Master
    const interval: int
    var copies: map<string, string>
    var queue: set<Request>

    function Current(): Store
      reads this
    {
      Store(copies, queue)
    }

    constructor (master: Master, interval: int, copies: map<string, string>)
      ensures this.master == master && this.interval == interval && Current() == Store(copies, {})
    {
      this.master, this.interval, this.copies, this.queue := master, interval, copies, {};
    }

    /** The event handlers: an accepted event puts its request into the queue. */
    method Observe(e: WatchEvent)
      modifies this`queue
      ensures queue == Notified(master, old(queue), e)
    {
      var accepted := false;
      match e {
        case SecretCreated(namespace, name) => accepted := name == master.name && namespace == master.namespace;
        case SecretUpdated(_, name, before, after) => accepted := name == master.name && before != after;
        case NamespaceCreated(namespace) => accepted := namespace != master.namespace;
        case _ =>
      }
      if accepted {
        queue := queue + {RequestFor(e)};
      }
    }

    /** Server-side apply of a copy. */
    method Patch(ns: string, data: string, answer: Answer) returns (err: Option<ApiError>)
      modifies this`copies, this`queue
      ensures err == answer(ns)
      ensures Current() == PatchedOne(master, old(Current()), ns, data, answer)
    {
      err := answer(ns);
      if err.None? {
        var e :=
          if ns in copies then SecretUpdated(ns, master.name, copies[ns], data) else SecretCreated(ns, master.name);
        copies := copies[ns := data];
        Observe(e);
      }
    }

    method Reconcile(req: Request, calls: Calls) returns (outcome: Outcome)
      modifies this`copies, this`queue
      ensures (Current(), outcome) == Reconciled(master, old(Current()), req, interval, calls)
    {
      if calls.config.Err? {
        return Failed([calls.config.error]);
      }
      if SET_PULL_SECRET !in calls.config.value.availableFeatures {
        return Done;
      }
      var isMasterSecretUpdated := req.namespace == master.namespace && req.name == master.name;
      var isCredentialsSecretUpdated :=
        req.namespace != "" && req.namespace != master.namespace && req.name == master.name;
      var isNamespaceCreated := req.namespace == "";
      if calls.masterRead.Some? {
        return Failed([calls.masterRead.value]);
      }
      if master.namespace !in copies {
        return Failed([NotFound]);
      }
      var data := copies[master.namespace];
      if isMasterSecretUpdated {
        if calls.namespaces.Err? {
          return Failed([calls.namespaces.error]);
        }
        outcome := SynchroniseAll(calls.namespaces.value, data, calls.patch);
        return;
      }
      if isCredentialsSecretUpdated {
        var err := Patch(req.namespace, data, calls.patch);
        return if err.Some? then Failed([err.value]) else Done;
      }
      if isNamespaceCreated {
        var err := Patch(req.name, data, calls.patch);
        return if err.Some? then Failed([err.value]) else Done;
      }
      return Done;
    }

    /** A failed patch is noted and the loop goes on. */
    method SynchroniseAll(items: seq<NamespaceItem>, data: string, answer: Answer) returns (outcome: Outcome)
      modifies this`copies, this`queue
      ensures Current() == Synchronised(master, old(Current()), items, |items|, data, answer)
      ensures var errors := Failures(master, items, |items|, answer);
              outcome == if errors != [] then Failed(errors) else DoneAgainAfter(interval)
    {
      var errors: seq<ApiError> := [];
      for i := 0 to |items|
        invariant Current() == Synchronised(master, old(Current()), items, i, data, answer)
        invariant errors == Failures(master, items, i, answer)
      {
        if items[i].namespace == master.name {
          continue;
        }
        var err := Patch(items[i].name, data, answer);
        if err.Some? {
          errors := errors + [err.value];
          continue;
        }
      }
      if |errors| > 0 {
        return Failed(errors);
      }
      return DoneAgainAfter(interval);
    }
  }
}
