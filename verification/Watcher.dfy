/** The trust-bundle watcher (internal/ctb/watcher.go): publish the bundle's hash, then run a deletion pass. */
module Watcher {
  import opened Prelude
  import opened HashHolders
  import opened Restarter

  /** Nanoseconds, as in Go's time.Duration. */
  const SECOND: int := 1_000_000_000

  /** The result of a reconciliation: an error (retried with back-off), no requeue, or a requeue after a delay. */
  datatype Reconciled = Failed(err: ApiError) | NoRequeue | RequeueAfter(delay: int)

  class CTBWatcher {
    const ctbName: string
    const resync: int
    const holder: HashHolder
    const cluster: Cluster

    constructor (ctbName: string, resync: int, holder: HashHolder, cluster: Cluster)
      ensures this.ctbName == ctbName && this.resync == resync && this.holder == holder && this.cluster == cluster
    {
      this.ctbName, this.resync, this.holder, this.cluster := ctbName, resync, holder, cluster;
    }

    function ResyncInterval(): (delay: int)
      ensures resync > 0 ==> delay == resync
      ensures resync <= 0 ==> delay == 300 * SECOND
    {
      if resync > 0 then resync else 5 * 60 * SECOND
    }

    /** bundleRead is the answer to reading the bundle, answers those to the calls of the pass. */
    method Reconcile(name: string, bundleRead: Result<string, ApiError>, sha: Digest, answers: Answers)
      returns (r: Reconciled)
      requires cluster.Valid()
      modifies holder, cluster`store
      ensures cluster.Valid()
      ensures name != ctbName || bundleRead.Err? ==>
                holder.hash == old(holder.hash) && cluster.store == old(cluster.store)
      ensures name != ctbName ==> r == NoRequeue
      ensures name == ctbName && bundleRead.Err? ==>
                r == if bundleRead.error == NotFound then NoRequeue else Failed(bundleRead.error)
      ensures name == ctbName && bundleRead.Ok? ==>
                && holder.hash == sha(bundleRead.value)
                && var s := FullPass(cluster.namespaces, old(cluster.store), holder.hash, answers);
                   && cluster.store == Without(old(cluster.store), s.gone)
                   && r == if s.err.Some? then Failed(s.err.value)
                           else if s.deleted then RequeueAfter(10 * SECOND)
                           else RequeueAfter(if resync > 0 then resync else 300 * SECOND)
    {
      if name != ctbName {
        return NoRequeue;
      }
      if bundleRead.Err? {
        return if bundleRead.error == NotFound then NoRequeue else Failed(bundleRead.error);
      }
      holder.ComputeAndSet(sha, bundleRead.value);
      var newHash := holder.Get();
      var pass := cluster.RestartStalePods(newHash, answers);
      if pass.Err? {
        return Failed(pass.error);
      }
      if pass.value {
        return RequeueAfter(10 * SECOND);
      }
      return RequeueAfter(ResyncInterval());
    }
  }

  /** At start-up: the holder is filled before the first request when the bundle can be read. */
  method PreComputeHash(bundleRead: Result<string, ApiError>, sha: Digest, holder: HashHolder)
    returns (err: Option<ApiError>)
    modifies holder
    ensures bundleRead.Err? ==> err == Some(bundleRead.error) && holder.hash == old(holder.hash)
    ensures bundleRead.Ok? ==> err.None? && holder.hash == sha(bundleRead.value)
  {
    if bundleRead.Err? {
      return Some(bundleRead.error);
    }
    holder.ComputeAndSet(sha, bundleRead.value);
    return None;
  }
}
