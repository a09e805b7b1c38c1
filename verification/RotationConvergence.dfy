/** One undisturbed reconciliation of an accessible cluster leaves no stale pod in it. */
module RotationConvergence {
  import opened Prelude
  import opened PodWebhook
  import opened Restarter
  import opened RestarterProperties
  import opened Rotation
  import opened RotationRefinement

  /** Every namespace may be listed and every delete is done, by the pass or by someone before it. */
  ghost predicate Accessible(namespaces: seq<string>, answers: Answers) {
    && answers.listNamespaces.None?
    && (forall ns | ns in namespaces :: answers.listPods(ns).None?)
    && forall id :: Removed(answers.deletePod(id))
  }

  lemma {:induction false} AccessiblePassEndsWell(namespaces: seq<string>, store: seq<StoredPod>, desired: string,
                                                  answers: Answers)
    requires Accessible(namespaces, answers)
    ensures Pass(namespaces, store, desired, answers).err.None?
  {
    if namespaces != [] {
      assert namespaces[0] in namespaces;
      SweepOutcome(InNamespace(store, namespaces[0]), desired, answers.deletePod);
      AccessiblePassEndsWell(namespaces[1..], store, desired, answers);
    }
  }

  /** A pass over an accessible cluster leaves no stale pod of the listed namespaces. */
  lemma NothingStaleLeft(namespaces: seq<string>, store: seq<StoredPod>, desired: string, answers: Answers)
    requires DistinctIds(store) && Accessible(namespaces, answers)
    ensures forall it | it in Without(store, FullPass(namespaces, store, desired, answers).gone)
              && it.pod.namespace in namespaces ::
              !Stale(it.pod, desired)
  {
    hide Stale, Admissible;
    AccessiblePassEndsWell(namespaces, store, desired, answers);
    PassIsExact(namespaces, store, desired, answers);
    WithoutMembers(store, Pass(namespaces, store, desired, answers).gone);
  }

  /**
   * With every namespace listed and accessible, one undisturbed reconciliation reaches a state without a stale pod in
   * the cluster; what is stale then was admitted with an older hash and is not stored yet.
   */
  lemma ReconcileConverges(w: World, st: State, bundle: string, namespaces: seq<string>, store: seq<StoredPod>,
                           answers: Answers)
    returns (next: State)
    requires UniqueIds(st) && st.worker.Idle? && st.bundle == Some(bundle) && Represents(st, store)
    requires forall i, j | 0 <= i < j < |namespaces| :: namespaces[i] != namespaces[j]
    requires Accessible(namespaces, answers) && forall it | it in store :: it.pod.namespace in namespaces
    ensures Reaches(w, st, next) && next.worker.Idle? && next.holder == w.sha(bundle)
    ensures forall s | s in StaleSlots(next) :: next.slots[s].InFlight?
  {
    hide Stale, Reaches, Without, UniqueIds, FullPass, Accessible, Admissible;
    next := ReconcileIsRun(w, st, bundle, namespaces, store, answers);
    var gone := FullPass(namespaces, store, w.sha(bundle), answers).gone;
    NothingStaleLeft(namespaces, store, w.sha(bundle), answers);
    WithoutMembers(store, gone);
    forall s | 0 <= s < |next.slots| && next.slots[s].Live?
      ensures !Stale(next.slots[s].pod, next.holder)
    {
      var it := StoredPod(next.slots[s].id, next.slots[s].pod);
      assert it in Without(store, gone) && it in store;
    }
  }
}
