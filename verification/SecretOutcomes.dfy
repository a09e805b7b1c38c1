/**
 * One reconciliation of a pull secret, request by request: what it writes, which requests its writes raise, and what it
 * returns. None of this refers to how the reconciliation is computed.
 */
module SecretOutcomes {
  import opened Prelude
  import opened Features
  import opened SecretSync
  import opened SecretSyncRuns

  // ----- events -----

  /** The events that enter the queue: the master appears, some copy's data changes, another namespace appears. */
  lemma AcceptedRule(m: Master, e: WatchEvent)
    ensures Accepted(m, e) <==>
            || e == SecretCreated(m.namespace, m.name)
            || (e.SecretUpdated? && e.name == m.name && e.before != e.after)
            || (e.NamespaceCreated? && e.namespace != m.namespace)
  {
  }

  /** An accepted event never goes unhandled: its request is about all namespaces when the master changed, and about the
      event's own namespace otherwise. */
  lemma AcceptedIsHandled(m: Master, e: WatchEvent, namespaces: set<string>)
    requires ValidMaster(m) && Accepted(m, e) && e.namespace != ""
    ensures Concerned(m, RequestFor(e), namespaces) == if e.namespace == m.namespace then namespaces else {e.namespace}
  {
  }

  // ----- one reconciliation -----

  predicate FromMaster(m: Master, req: Request) {
    req.namespace == m.namespace && req.name == m.name
  }

  predicate FromCopy(m: Master, req: Request) {
    req.namespace != "" && req.namespace != m.namespace && req.name == m.name
  }

  /** The controller gets to work: it can read a configuration with the feature on, and a master. */
  predicate Works(m: Master, s: Store, calls: Calls) {
    && calls.config.Ok? && SET_PULL_SECRET in calls.config.value.availableFeatures
    && calls.masterRead == None && m.namespace in s.copies
  }

  predicate InList(m: Master, calls: Calls, ns: string) {
    && calls.namespaces.Ok?
    && exists i :: 0 <= i < |calls.namespaces.value| && calls.namespaces.value[i].name == ns
                   && calls.namespaces.value[i].namespace != m.name
  }

  /** The request addresses the namespace: all listed ones, the copy's, or the new one. */
  predicate Addresses(m: Master, req: Request, calls: Calls, ns: string) {
    || (FromMaster(m, req) && InList(m, calls, ns))
    || (FromCopy(m, req) && req.namespace == ns)
    || (req.namespace == "" && req.name == ns)
  }

  predicate Writes(m: Master, req: Request, calls: Calls, ns: string) {
    Addresses(m, req, calls, ns) && calls.patch(ns) == None
  }

  /** The copies afterwards: the addressed namespaces whose patch succeeds have the master's data, all others keep
      theirs. Without a master, the feature or a configuration nothing happens. */
  lemma WritesExactly(m: Master, s: Store, req: Request, interval: int, calls: Calls)
    requires ValidMaster(m)
    ensures var (r, _) := Reconciled(m, s, req, interval, calls);
            if !Works(m, s, calls) then r == s
            else && (forall ns :: ns in r.copies <==> ns in s.copies || Writes(m, req, calls, ns))
                 && forall ns | ns in r.copies ::
                      r.copies[ns] == if Writes(m, req, calls, ns) then s.copies[m.namespace] else s.copies[ns]
  {
    if Works(m, s, calls) && calls.namespaces.Ok? {
      var items := calls.namespaces.value;
      SynchronisedMeaning(m, s, items, |items|, s.copies[m.namespace], calls.patch);
      forall ns
        ensures Reached(m, items, |items|, calls.patch, ns) <==> InList(m, calls, ns) && calls.patch(ns) == None
      {
      }
    }
  }

  /** The requests a full synchronisation raises: one for each copy it changes. */
  lemma {:induction false} SynchronisedRaises(m: Master, s: Store, items: seq<NamespaceItem>, n: nat, answer: Answer)
    requires n <= |items| && m.namespace in s.copies
    ensures Synchronised(m, s, items, n, s.copies[m.namespace], answer).queue ==
            s.queue + set ns | ns in s.copies && Reached(m, items, n, answer, ns)
                               && s.copies[ns] != s.copies[m.namespace] :: Request(ns, m.name)
  {
    var data := s.copies[m.namespace];
    if n > 0 {
      SynchronisedRaises(m, s, items, n - 1, answer);
      SynchronisedMeaning(m, s, items, n - 1, data, answer);
      var item := items[n - 1];
      forall ns
        ensures Reached(m, items, n, answer, ns) <==>
                (Reached(m, items, n - 1, answer, ns)
                 || (ns == item.name && item.namespace != m.name && answer(ns).None?))
      {
      }
    }
  }

  /** The requests a reconciliation raises itself: one for each copy it changes, and no other. */
  lemma RaisesExactly(m: Master, s: Store, req: Request, interval: int, calls: Calls)
    requires ValidMaster(m) && Works(m, s, calls)
    ensures Reconciled(m, s, req, interval, calls).0.queue ==
            s.queue + set ns | ns in s.copies && Writes(m, req, calls, ns) && s.copies[ns] != s.copies[m.namespace]
                      :: Request(ns, m.name)
  {
    if calls.namespaces.Ok? {
      var items := calls.namespaces.value;
      SynchronisedRaises(m, s, items, |items|, calls.patch);
      forall ns
        ensures Reached(m, items, |items|, calls.patch, ns) <==> InList(m, calls, ns) && calls.patch(ns) == None
      {
      }
    }
  }

  // ----- what it returns -----

  predicate PatchFailsAt(m: Master, items: seq<NamespaceItem>, i: nat, answer: Answer, e: ApiError) {
    i < |items| && items[i].namespace != m.name && answer(items[i].name) == Some(e)
  }

  function FailingItems(m: Master, items: seq<NamespaceItem>, n: nat, answer: Answer): set<nat>
    requires n <= |items|
  {
    set i | 0 <= i < n && items[i].namespace != m.name && answer(items[i].name).Some?
  }

  /** The errors gathered by the loop: one for each failing patch. */
  lemma {:induction false} FailuresMeaning(m: Master, items: seq<NamespaceItem>, n: nat, answer: Answer)
    requires n <= |items|
    ensures forall e :: e in Failures(m, items, n, answer) <==>
                        exists i: nat :: i < n && PatchFailsAt(m, items, i, answer, e)
    ensures |Failures(m, items, n, answer)| == |FailingItems(m, items, n, answer)|
  {
    if n > 0 {
      FailuresMeaning(m, items, n - 1, answer);
      var before, failing := FailingItems(m, items, n - 1, answer), FailingItems(m, items, n, answer);
      if items[n - 1].namespace != m.name && answer(items[n - 1].name).Some? {
        assert PatchFailsAt(m, items, n - 1, answer, answer(items[n - 1].name).value);
        assert failing == before + {n - 1};
      } else {
        assert failing == before;
      }
    }
  }

  /** An error the reconciliation meets. */
  ghost predicate Meets(m: Master, s: Store, req: Request, calls: Calls, e: ApiError) {
    if calls.config.Err? then e == calls.config.error
    else if SET_PULL_SECRET !in calls.config.value.availableFeatures then false
    else if calls.masterRead.Some? then e == calls.masterRead.value
    else if m.namespace !in s.copies then e == NotFound
    else if FromMaster(m, req) then
      if calls.namespaces.Err? then e == calls.namespaces.error
      else exists i: nat :: PatchFailsAt(m, calls.namespaces.value, i, calls.patch, e)
    else exists ns :: Addresses(m, req, calls, ns) && calls.patch(ns) == Some(e)
  }

  /**
   * A reconciliation fails exactly when it meets an error, a missing master included, and reports exactly the errors
   * met; otherwise it asks to come back after the interval when it was about the master, and is done when it was not.
   */
  lemma ReturnsExactly(m: Master, s: Store, req: Request, interval: int, calls: Calls)
    requires ValidMaster(m)
    ensures var outcome := Reconciled(m, s, req, interval, calls).1;
            && (outcome.Failed? <==> exists e :: Meets(m, s, req, calls, e))
            && (outcome.Failed? ==> forall e :: e in outcome.errors <==> Meets(m, s, req, calls, e))
            && (!outcome.Failed? ==>
                  outcome == if Works(m, s, calls) && FromMaster(m, req) then DoneAgainAfter(interval) else Done)
  {
    var outcome := Reconciled(m, s, req, interval, calls).1;
    if Works(m, s, calls) && FromMaster(m, req) && calls.namespaces.Ok? {
      var items := calls.namespaces.value;
      var errors := Failures(m, items, |items|, calls.patch);
      FailuresMeaning(m, items, |items|, calls.patch);
      forall e
        ensures e in errors <==> Meets(m, s, req, calls, e)
      {
      }
      if errors != [] {
        assert errors[0] in errors;
      }
    } else if Works(m, s, calls) && !FromMaster(m, req) {
      SingleError(m, s, req, calls);
    } else {
      forall e
        ensures outcome.Failed? && e in outcome.errors <==> Meets(m, s, req, calls, e)
      {
      }
      assert outcome.Failed? ==> outcome.errors[0] in outcome.errors;
    }
    if outcome.Failed? {
      var e := outcome.errors[0];
      assert e in outcome.errors && Meets(m, s, req, calls, e);
    }
  }

  /** A request about one namespace fails exactly with the error of its one patch. */
  lemma SingleError(m: Master, s: Store, req: Request, calls: Calls)
    requires ValidMaster(m) && Works(m, s, calls) && !FromMaster(m, req)
    ensures forall interval :: var outcome := Reconciled(m, s, req, interval, calls).1;
              && (outcome.Failed? || outcome.Done?)
              && (outcome.Failed? ==> outcome.errors != [])
              && forall e :: outcome.Failed? && e in outcome.errors <==> Meets(m, s, req, calls, e)
  {
    forall e
      ensures Meets(m, s, req, calls, e) <==>
              (FromCopy(m, req) && calls.patch(req.namespace) == Some(e))
              || (req.namespace == "" && calls.patch(req.name) == Some(e))
    {
      if FromCopy(m, req) {
        assert Addresses(m, req, calls, req.namespace);
      } else if req.namespace == "" {
        assert Addresses(m, req, calls, req.name);
      }
    }
  }
}
