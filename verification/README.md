# Runtime Bootstrapper, verified

Runtime Bootstrapper is a Kubernetes webhook and controller. It rewrites pods on admission (image registries, pull
secrets, a cluster trust bundle, FIPS mode, the landscape identifier), keeps a pull secret in step across namespaces,
and restarts pods that were admitted with an older trust bundle. This project models its three mechanisms in Dafny and
proves what they guarantee, alone and together.

**The rotation protocol.** A watcher reads the trust bundle, publishes its hash in a shared holder and deletes owned
pods stamped with another hash; the webhook reads the same holder when owners recreate those pods. The code itself is
in `HashHolders`, `Restarter` and `Watcher`, in its imperative form, against a functional specification of a deletion
pass; `RestarterProperties` says what a pass guarantees under any mix of API errors, and `PassOutcome` gives its whole
outcome pod by pod, without reference to how it is computed. `Rotation` takes the protocol
apart into single API calls and interleaves them freely with bundle updates, admissions (reading the holder and storing
the pod are separate steps), owners and everybody else who removes pods. What a step may admit is the whole webhook
pipeline of `PodWebhook`, under whatever namespace annotations and configurations a world allows, so eligibility, opt-in
and stamping are the very rules of the code. The main results: every hash the webhook stamps is the hash of a bundle
there was; a slot is restarted at most once per change of the hash; the work left only shrinks; a clean pass leaves
nothing stale but pods that were still in flight. `RotationLimits` gives the exact condition for the bound on an owner's
template and the settings its admissions may find, with runs that restart forever when it fails. `RotationRefinement` shows that the reconciliation of `Watcher` is a run of
this protocol with the same effect, whatever the API server answers; `RotationConvergence` that it converges.

**The pod-defaulting pipeline.** `Features` (configuration, expansion of the `all` alias, opt-in), `Images` (registry
rewrite on text), `Pods`, `Defaulters` (the five defaulters in place on a pod object, and their effect as functions),
`DefaulterProperties` (what each guarantees), `PodWebhook` (the pipeline, its mark, its frame and how it closes restart
eligibility) and `PipelineLaws` (order independence, idempotence).

**The pull-secret controller.** `SecretSync` has the event filters and the reconciler; `SecretSyncRuns` puts it into a
cluster in which its own writes feed its own queue while others write, delete and create namespaces; `SecretOutcomes`
gives the outcome of one reconciliation: what it writes, which requests that raises, and what it returns.

## Where the code departs from its documentation

The model follows the code.

- `openspec/specs/ctb-annotation-value` (lines 55-64 of its one file) says a pod annotated "false" is never restarted,
  and the comment at `pkg/api/v1/ctb_values.go:7` says so too. The code restarts it exactly when it has an owner and
  came with another hash (`PodWebhook.OptedOutPodIsStaleIff`), and a template that carries a hash in a setting that does
  not ask for the bundle is restarted without end (`RotationLimits.EndlessRestarts`).
- `docs/contributor/01-08-crosscutting-concepts.md:55-64` promises idempotent manipulations. The image rewrite
  is idempotent exactly when no override leads to a registry that is overridden again (`Images.RewriteIdempotentIff`,
  `PipelineLaws.AdmitIdempotentIff`).
- `internal/ctb/restarter.go:20` says true is returned if any pod was deleted. A Forbidden delete drops what was deleted
  before it in that namespace (`RestarterProperties.FlagCanBeLost`), so the quick requeue is missed. The
  comment holds exactly when, some namespace losing a pod, some namespace loses all its stale pods
  (`RestarterProperties.FlagTruthfulIff`).
- `docs/contributor/02-01-pod-manipulations.md:18` promises a restart when the bundle changes. A pod without a hash of
  its own that its namespace or `all` opts in while the holder is still empty gets the bundle and is never restarted
  (`PodWebhook.AskedIsEligibleIff`, `PodWebhook.UnreachablePod`).
- `docs/user/01-adapt-workloads-to-landscape.md:75-88` has the bundle mounted into init containers. The code mounts it into
  main containers only (`DefaulterProperties.TrustBundleDefaulting`).
- The trust-bundle defaulter reports a change whenever there is a hash to stamp or a main container to mount into, also
  when nothing changes, because it compares a mount with a volume (`DefaulterProperties.TrustBundleReportsAgain`).
- `docs/contributor/01-05-building-block-view.md:121` has the reconciler sync the master to all namespaces. An idle
  controller stays idle over a missing copy exactly after someone deleted it, because deletions are filtered out
  (`SecretSyncRuns.LossIff`), and a request that arrives while the feature is off is dropped without a retry
  (`SecretSyncRuns.IgnoredIff`). A later master request repairs both (`SecretSyncRuns.MasterPassRepairs`).
- The test that is to leave out the master secret (`internal/controller/secret_controller.go:95-98`) never holds for a
  namespace object, so the master is written with its own data (`SecretSyncRuns.MasterUntouched`).

## Model

| member | source | states |
|---|---|---|
| Rotation.StepConsistent | internal/ctb/watcher.go:40-48 | every step of the protocol keeps pod identities unique, the watcher's remembered pods true, and the wanted hash equal to the holder's non-empty one during a pass |
| Rotation.HashesAreGenuine | internal/ctb/watcher.go:40-48 | over every run the holder is empty or the hash of a bundle that was current earlier, so is the hash on every pod the webhook admitted unless it is its template's own, and a pass wants the holder's hash |
| Rotation.HistoryIsTrue | internal/ctb/restarter.go:58-81 | the bundles, deletions and changes that the other results speak of are those of the events of the run |
| Rotation.SelectedWorldIsValid | internal/webhook/v1/pod_webhook.go:50-67 | the list the webhook selects from a catalogue with the trust bundle meets what the protocol assumes of it: one trust-bundle defaulter |
| Rotation.OneRestartPerHash | internal/ctb/restarter.go:58-81 | between two changes of the published hash, in any interleaving, a slot's pod is deleted at most once |
| Rotation.RestartsBoundedByChanges | internal/ctb/restarter.go:58-81 | over a whole run from any initial cluster a slot is restarted at most as often as the holder's hash changed |
| Rotation.TotalRestartsBounded | internal/ctb/restarter.go:58-81 | all deletions of a run together are at most slots times hash changes |
| Rotation.StaleSlotsShrink | internal/ctb/watcher.go:40-56 | once the hash stays, no slot becomes stale (present or in flight) and each deletion takes one away |
| Rotation.WorkLeftBoundsDeletions | internal/ctb/watcher.go:40-56 | while the hash stays, deletions made plus slots still stale never exceed what was stale at the start, which bounds the passes that delete something |
| Rotation.CleanPassLeavesOnlyLateComers | internal/ctb/restarter.go:29-49 | whatever happens during a pass that is not cut short, a slot stale at its end was admitted with an older hash and not yet stored when the pass began |
| Rotation.CleanPassSettles | internal/ctb/watcher.go:40-56 | when no admission was under way at its start, such a pass ends with nothing stale, and until the hash changes nothing becomes stale and no pod is deleted, whatever happens |
| Rotation.NothingStaleStaysQuiet | internal/ctb/restarter.go:58-81 | with nothing stale no run deletes a pod for as long as the hash stays |
| RotationLimits.EndlessRestarts | pkg/api/v1/ctb_values.go:33-46 | a slot whose owned template carries a hash, and which some possible setting does not ask for the bundle, can be restarted any number of times under one single hash |
| RotationLimits.BoundHoldsIffSettled | internal/webhook/v1/pod_defaulters.go:191-217 | the bound of a slot holds on all runs exactly when, under every setting its admissions may find, its template brings no hash, or has no owner, or is asked for the bundle |
| RotationLimits.BoundUnderOneSetting | internal/webhook/v1/pod_defaulters.go:191-217 | with configuration and namespace annotations fixed, the bound holds exactly when the template brings no hash, or has no owner, or is asked for the bundle under them |
| RotationLimits.BoundHoldsIffClosed | internal/webhook/v1/pod_defaulters.go:191-217 | when every configuration and namespace annotation may come, the bound holds exactly when the template brings no hash, or asks for the bundle itself, or has no owner |
| RotationRefinement.PassIsRun | internal/ctb/restarter.go:29-84 | a deletion pass of the code, under any answers, is a run of the protocol that leaves exactly the same pods |
| RotationRefinement.ReconcileIsRun | internal/ctb/watcher.go:40-56 | an uninterrupted reconciliation is a run of the protocol from an idle watcher to an idle one, with the bundle's hash published and the pods the code leaves |
| RotationConvergence.ReconcileConverges | internal/ctb/watcher.go:40-56 | with every namespace accessible, one such reconciliation leaves no stale pod in the cluster |
| Watcher.CTBWatcher.Reconcile | internal/ctb/watcher.go:27-57 | other bundles and failed reads change nothing; otherwise the holder has the bundle's hash, the pass of that hash has been made, and the requeue delay says what the pass reported |
| Watcher.CTBWatcher.ResyncInterval | internal/ctb/watcher.go:69-74 | the configured interval when it is positive, five minutes otherwise |
| Watcher.PreComputeHash | internal/ctb/watcher.go:78-86 | the holder is filled at start-up, or left alone when the bundle cannot be read |
| HashHolders.HashHolder.constructor | internal/ctb/hash_holder.go:16-18 | a new holder is empty |
| HashHolders.HashHolder.Get | internal/ctb/hash_holder.go:20-24 | reads the stored hash |
| HashHolders.HashHolder.Set | internal/ctb/hash_holder.go:26-30 | replaces the stored hash |
| HashHolders.HashHolder.ComputeAndSet | internal/ctb/hash_holder.go:33-36 | stores the digest of the bundle, which is never empty |
| Restarter.Cluster.ListPods | internal/ctb/restarter.go:53-56 | a listing that is answered holds the namespace's pods as they are |
| Restarter.Cluster.Delete | internal/ctb/restarter.go:77-79 | a pod is gone after success and after NotFound, and stays otherwise |
| Restarter.Cluster.RestartStalePodsInNamespace | internal/ctb/restarter.go:52-84 | refines the specification of one namespace: pods gone, flag and error |
| Restarter.Cluster.RestartStalePods | internal/ctb/restarter.go:21-50 | refines the specification of a whole pass although each namespace is listed after the deletions in earlier ones |
| RestarterProperties.PassIsSafe | internal/ctb/restarter.go:29-81 | under any answers only stale pods of accessible namespaces, whose delete was answered as done, go; a true flag means one is gone |
| RestarterProperties.PassSparesTheRest | internal/ctb/restarter.go:58-81 | orphans, ineligible pods, pods with the wanted hash and pods of forbidden namespaces all stay |
| RestarterProperties.PassIsExact | internal/ctb/restarter.go:21-84 | a pass without error and without a Forbidden delete leaves exactly the other pods, and returns true exactly when there was one to remove |
| RestarterProperties.SecondPassIsQuiet | internal/ctb/restarter.go:21-84 | after such a pass over accessible namespaces another one deletes nothing, whatever its answers |
| RestarterProperties.FlagRule | internal/ctb/restarter.go:31-46 | the exact meaning of the flag: some namespace had stale pods and every delete in it was done |
| RestarterProperties.GoneRule | internal/ctb/restarter.go:29-84 | a pass without error deletes something exactly when in some namespace it may list the first stale pod's delete is done |
| RestarterProperties.FlagTruthfulIff | internal/ctb/restarter.go:20-50 | the flag of a pass without error is true exactly when it deleted a pod, if and only if: some namespace losing a pod, some namespace loses all its stale pods |
| RestarterProperties.FlagCanBeLost | internal/ctb/restarter.go:31-41 | a pass can delete pods, end well and report that none was deleted |
| PassOutcome.WholePass | internal/ctb/restarter.go:21-84 | a failed list of namespaces gives that error and removes nothing; otherwise the pass ends with the failure of the first namespace that fails other than Forbidden, deletes exactly the stale pods it comes to, in each namespace up to the first delete that is neither done nor NotFound, and returns true exactly when it ends well and clears a namespace of its stale pods |
| PassOutcome.FullPassLaws | internal/ctb/restarter.go:21-84 | of the whole pass: every pod it is not after stays; without error its flag and its deletions each hold exactly when some namespace is cleared or loses a pod; without a Forbidden delete it leaves exactly the other pods |
| PodWebhook.SelectDefaulters | internal/webhook/v1/pod_webhook.go:50-67 | exactly the defaulters whose feature the catalogue lists, each once, in the fixed order |
| PodWebhook.PodCustomDefaulter.constructor | internal/webhook/v1/pod_webhook.go:44-97 | the webhook has the selected defaulters and the start-up parameters |
| PodWebhook.PodCustomDefaulter.Default | internal/webhook/v1/pod_webhook.go:143-214 | fails exactly when the namespace or a configuration cannot be read, with the first such error and what the defaulters before it did; otherwise the pod is the composition of the defaulters, marked when one of them reported a change |
| PodWebhook.ChangeIsMarked | internal/webhook/v1/pod_webhook.go:179-211 | a pod that leaves admission different from how it came is marked as modified |
| PodWebhook.NothingAskedNothingChanged | internal/webhook/v1/pod_webhook.go:204-206 | a pod for which no defaulter is asked is admitted untouched, without the mark |
| PodWebhook.RunConcatenates | internal/webhook/v1/pod_webhook.go:180-202 | a list of defaulters runs in its order: a first part, then the rest on what came out |
| PodWebhook.FullSelection | internal/webhook/v1/pod_webhook.go:50-67 | with the whole catalogue the webhook runs all five defaulters, in this order |
| PodWebhook.StaleRule | internal/ctb/restarter.go:62-74 | the restarter's test on the annotations as they are, a missing hash reading as empty |
| PodWebhook.PipelineFrame | internal/webhook/v1/pod_webhook.go:179-211 | names, counts and order stay; of an image only the registry may be exchanged; only the first entry of one of the webhook's own names may change and only such entries are appended, of pull secrets only the configured one; no other annotation than the hash and the mark changes |
| PodWebhook.AdmittedStaleIff | internal/webhook/v1/pod_defaulters.go:191-217 | an admitted pod is stale for the hash stamped with exactly when it is owned, brought another hash with it and nothing asked for the bundle |
| PodWebhook.AdmissionClosesEligibility | internal/webhook/v1/pod_defaulters.go:191-217 | a pod without a hash of its own that is eligible for restart after admission carries the holder's hash, under any configuration |
| PodWebhook.AskedIsEligibleIff | internal/webhook/v1/pod_defaulters.go:204-217 | a pod that asks for the bundle can be restarted later exactly when there was a hash to stamp, or it brought one, or says "true" itself; then it is stale for exactly the other hashes |
| PodWebhook.UnreachablePod | internal/webhook/v1/pod_defaulters.go:204-217 | an owned pod that its namespace opts in while the holder is empty is asked for and never stale |
| PodWebhook.AdmittedUpToDate | internal/webhook/v1/pod_defaulters.go:191-217 | a pod that brings no hash, or has no owner, or is asked for the bundle is never stale for the hash it was admitted with |
| PodWebhook.ClosedIff | internal/webhook/v1/pod_defaulters.go:191-217 | the templates for which this holds under every configuration and namespace are those that bring no hash, or ask for the bundle themselves, or have no owner |
| PodWebhook.AdmittedHash | internal/webhook/v1/pod_defaulters.go:208-215 | an admitted pod's hash is the holder's, which is not empty then, or the one it came with |
| PodWebhook.OptedOutPodIsStaleIff | pkg/api/v1/ctb_values.go:20-46 | an admitted pod that says "false" is stale exactly when it is owned and came with another hash, whatever the holder had |
| PipelineLaws.OrderIndependent | internal/webhook/v1/pod_webhook.go:180-202 | any order of the selected defaulters, each with the configuration it reads, gives the same pod, up to the order of newly appended environment entries |
| PipelineLaws.RunIs | internal/webhook/v1/pod_webhook.go:180-202 | after any number of defaulters every field of the pod and of its containers is the one that the set of defaulters asked for by the submitted pod determines |
| PipelineLaws.AdmitIdempotent | internal/webhook/v1/pod_webhook.go:143-214 | admitting an admitted pod with the same configurations changes nothing, although the trust-bundle defaulter reports a change again |
| PipelineLaws.AdmitIdempotentIff | internal/webhook/v1/pod_webhook.go:143-214 | idempotence on all pods holds exactly when the image defaulter is not selected or the overrides are stable |
| PipelineLaws.RunReports | internal/webhook/v1/pod_webhook.go:192-201 | the pipeline reports a change exactly when one of its defaulters would on the submitted pod |
| PipelineLaws.MarkIff | internal/webhook/v1/pod_webhook.go:192-211 | a pod is marked when some defaulter would report on it as submitted, and otherwise admitted exactly as it came |
| PipelineLaws.SelectedIsDistinct | internal/webhook/v1/pod_webhook.go:59-67 | the selected list repeats no defaulter, as the laws require |
| Defaulters.AsksFor | internal/webhook/v1/pod_defaulters.go:37-53 | the loop over the three levels decides the opt-in |
| Defaulters.AlterImgRegistry | internal/webhook/v1/pod_defaulters.go:60-79 | every container's image is rewritten; true exactly when some image changed |
| Defaulters.AlterPodImages | internal/webhook/v1/pod_defaulters.go:81-94 | init and main containers are rewritten; true exactly when the pod changed |
| Defaulters.AddImagePullSecret | internal/webhook/v1/pod_defaulters.go:101-112 | the secret is appended unless it is there; true exactly when the list changed |
| Defaulters.SetEnvVar | internal/webhook/v1/pod_defaulter_fips_mode.go:59-89 | one variable is set at the position found in an earlier view of the entries; the same code sets the landscape variable |
| Defaulters.SnapshotSearch | internal/webhook/v1/pod_defaulter_fips_mode.go:29-61 | searching the entries as they were before an append finds what searching the live list finds |
| Defaulters.SetFipsMode | internal/webhook/v1/pod_defaulter_fips_mode.go:27-37 | both variables set in every container of a list although both searches use the old view; true exactly when a container changed |
| Defaulters.SetLandscape | internal/webhook/v1/pod_defaulter_landscape.go:18-26 | the landscape variable set in every container of a list; true exactly when a container changed |
| Defaulters.HandleVolumeMount | internal/webhook/v1/pod_defaulters.go:122-152 | every container of the list mounts the bundle; the result is true as soon as there is a container |
| Defaulters.HandleClusterTrustBundle | internal/webhook/v1/pod_defaulters.go:162-189 | volume and main containers carry the mapping; true when the volume changed or there is a main container |
| Defaulters.AddClusterTrustBundle | internal/webhook/v1/pod_defaulters.go:191-222 | opt-out, opt-in, mounting and stamping with the holder's hash, and what is reported |
| Defaulters.RunDefaulter | internal/webhook/v1/pod_defaulters.go:32-58 | each defaulter in place is its effect on values, and its report is the specified one |
| DefaulterProperties.EnvSetMeaning | internal/webhook/v1/pod_defaulter_landscape.go:48-78 | the first entry of the name carries the value, nothing changes exactly when it did before, an entry that is set is a plain one, every other entry stays as it is |
| DefaulterProperties.FipsDefaulting | internal/webhook/v1/pod_defaulter_fips_mode.go:26-89 | afterwards every init and main container reads "true" from both variables, no other entry and nothing else of the pod changes; reported exactly when one did not before |
| DefaulterProperties.LandscapeDefaulting | internal/webhook/v1/pod_defaulter_landscape.go:17-78 | the same for the landscape variable |
| DefaulterProperties.ImageDefaulting | internal/webhook/v1/pod_defaulters.go:60-98 | in every container the text before the first slash is exchanged as overridden, and nothing else in the pod changes; reported exactly when some registry is overridden by another |
| DefaulterProperties.PullSecretDefaulting | internal/webhook/v1/pod_defaulters.go:101-117 | the configured secret ends up in the list, appended when it was missing, the old list stays its beginning and nothing else changes; reported exactly when it was missing |
| DefaulterProperties.TrustBundleDefaulting | internal/webhook/v1/pod_defaulters.go:122-189 | the first volume of the configured name projects the configured bundle to the configured path, every main container's first mount of that name is read-only at the configured path; every other volume and mount, the init containers and the rest of the pod stay, but for the stamped hash; without a mapping only the hash is stamped; and what is reported |
| DefaulterProperties.UnreportedIsUnchanged | internal/webhook/v1/pod_webhook.go:192-201 | a defaulter that reports no change made none |
| DefaulterProperties.UnaskedIsUntouched | internal/webhook/v1/pod_defaulters.go:55-56 | a defaulter that is not asked leaves the pod alone and reports nothing |
| DefaulterProperties.TrustBundleReportsAgain | internal/webhook/v1/pod_defaulters.go:140-148 | run on its own output the trust-bundle defaulter changes nothing, yet reports a change exactly when there is a hash or a main container to mount into |
| DefaulterProperties.SameAsk | internal/webhook/v1/pod_defaulters.go:208-215 | stamping and marking change no defaulter's opt-in |
| DefaulterProperties.AskedRule | internal/webhook/v1/pod_defaulters.go:191-207 | a defaulter runs exactly when one of three closed rules asks for it; for the trust bundle a pod's "false" beats all |
| DefaulterProperties.AskedByName | pkg/api/v1/types.go:17-21 | each defaulter answers to its own annotation |
| DefaulterProperties.KnownFeaturesAreServed | pkg/api/v1/types.go:33-39 | the features a configuration may name are those that a defaulter serves |
| Features.NamespaceDefaultFeatures | pkg/api/v1/types.go:52-72 | a namespace's list with the alias replaced by the catalogue, each switched on |
| Features.ExpandAnnotationAll | pkg/api/v1/types.go:77-97 | the catalogue under the explicit annotations, without the alias |
| Features.CopyWithoutAll | pkg/api/v1/types.go:84-90 | the given annotations without the alias, in whatever order the map is visited |
| Features.ExpansionStable | pkg/api/v1/types.go:74-97 | expansion is idempotent, overwrites no explicit value, adds exactly the catalogued features nothing was said about, and without the alias changes nothing |
| Features.ContainsIff | internal/webhook/k8s/utilz.go:34-42 | containing entries is being unchanged by writing them |
| Features.LevelRule | pkg/api/v1/types.go:77-97 | at one annotation level: explicitly "true", or not mentioned and covered by the alias and the catalogue |
| Features.OptInRule | internal/webhook/v1/pod_defaulters.go:37-53 | the opt-in over three levels as a closed rule on list and annotations |
| Features.MountEnabledIsContained | pkg/api/v1/ctb_values.go:12-18 | the two tests of the trust-bundle defaulter are one |
| Features.SanitizeAvailableFeatures | pkg/api/v1/types.go:102-114 | accepts exactly the catalogues of known features |
| Features.ValidateNsFeatures | pkg/api/v1/types.go:138-156 | accepts exactly the well-formed lists |
| Features.ValidateFeatureAliases | pkg/api/v1/types.go:116-133 | accepts exactly the well-formed configurations, in any order of the map |
| Features.AcceptedIff | pkg/api/v1/types.go:52-156 | a configuration is accepted exactly when its catalogue is known and every namespace's list, the alias resolved, switches on known features only, of the catalogue when there is one |
| Features.AcceptedConfigIsSound | pkg/api/v1/types.go:52-156 | an accepted configuration switches on only known, catalogued features, never the alias, and its expansion leaves no alias to expand |
| Images.JoinSplit | internal/webhook/k8s/utilz.go:18-27 | joining the pieces of a split text gives the text back |
| Images.SplitPieces | internal/webhook/k8s/utilz.go:19-22 | no piece of a split text holds a slash |
| Images.RewriteReplacesRegistryOnly | internal/webhook/k8s/utilz.go:18-30 | the rewrite exchanges exactly the text before the first slash, when that holds a dot or a colon and is overridden; every other character stays |
| Images.RewriteIdempotentIff | internal/webhook/k8s/utilz.go:10-30 | rewriting twice is rewriting once on all images exactly for overrides that lead to no other override |
| Images.RewriteUndoneIff | internal/webhook/k8s/utilz.go:10-30 | the inverse of an injective override map undoes the rewrite exactly on images whose registry is not a target that is no key |
| SecretSync.SecretReconciler.constructor | internal/controller/secret_controller.go:41-47 | a reconciler for one master, with an empty queue |
| SecretSync.SecretReconciler.Observe | internal/controller/master_secret_predicate.go:22-68 | the secret filter, and for namespaces the one of create_ns_predicate.go, decide what enters the queue |
| SecretSync.SecretReconciler.Patch | internal/controller/secret_controller.go:100-105 | a copy is written and its event observed, or nothing happens |
| SecretSync.SecretReconciler.SynchroniseAll | internal/controller/secret_controller.go:93-123 | the loop over namespaces goes on after failures and reports them all |
| SecretSync.SecretReconciler.Reconcile | internal/controller/secret_controller.go:55-151 | the three kinds of request, the disabled feature, the missing master and every error case |
| SecretOutcomes.AcceptedRule | internal/controller/master_secret_predicate.go:22-68 | the events that enter the queue: the master appears, the data of a copy changes, another namespace appears |
| SecretOutcomes.AcceptedIsHandled | internal/controller/secret_controller.go:65-67 | an accepted event never goes unhandled: its request is about all namespaces when the master changed and about the event's own otherwise |
| SecretOutcomes.WritesExactly | internal/controller/secret_controller.go:85-147 | the addressed namespaces whose patch succeeds have the master's data and all others keep theirs; without a configuration, the feature or a master nothing happens |
| SecretOutcomes.RaisesExactly | internal/controller/master_secret_predicate.go:45-63 | a reconciliation raises one request for each copy it changes and no other |
| SecretOutcomes.FailuresMeaning | internal/controller/secret_controller.go:107-121 | the errors gathered are one for each failing patch |
| SecretOutcomes.ReturnsExactly | internal/controller/secret_controller.go:55-151 | a request fails exactly when it meets an error, a missing master included, with exactly the errors met; otherwise it comes back after the interval when it was about the master and is done when not |
| SecretSyncRuns.SynchronisedMeaning | internal/controller/secret_controller.go:94-115 | exactly the listed namespaces whose patch succeeded get the data, every other copy stays, no request is dropped |
| SecretSyncRuns.MasterUntouched | internal/controller/secret_controller.go:80-147 | no reconciliation changes the master's data, although it writes over it |
| SecretSyncRuns.NoUpdateIsLost | internal/controller/secret_controller.go:85-147 | over every run from the start of the process in any cluster, with outside writes and failing patches, an empty queue means every namespace has the master's data, unless during the run its copy was deleted or a request about it met a switched-off feature |
| SecretSyncRuns.LostOnlyBy | internal/controller/secret_controller.go:61-63 | sight of a namespace is lost only by deleting its copy or by an ignored request about it |
| SecretSyncRuns.LossIff | internal/controller/master_secret_predicate.go:38-41 | a controller at rest with every namespace in step stays idle with one out of step after exactly one kind of event: the deletion of an existing namespace's copy |
| SecretSyncRuns.IgnoredIff | internal/controller/secret_controller.go:61-63 | after a request that did not fail, the namespaces it is about are in step exactly when the feature was on or they were before |
| SecretSyncRuns.DeletedCopyIsLost | internal/controller/master_secret_predicate.go:38-41 | deleting a copy raises no request, so an idle controller stays idle and the namespace stays without its copy |
| SecretSyncRuns.LossWitness | internal/controller/master_secret_predicate.go:38-41 | a run from the start of the process that ends with an empty queue and a namespace out of step |
| SecretSyncRuns.MasterPassRepairs | internal/controller/secret_controller.go:85-124 | a master request processed with success puts every namespace right, also those that had been lost |
| SecretSyncRuns.WriteAddsNoWork | internal/controller/master_secret_predicate.go:45-63 | writing the master's data never adds work: the event it raises is paid for by a copy put right |
| SecretSyncRuns.ProcessingReducesWork | internal/controller/secret_controller.go:85-147 | twice the copies out of step plus the queue length strictly decreases with every request that succeeds |
| SecretSyncRuns.SynchronisationCompletes | internal/controller/secret_controller.go:85-136 | left alone with a pending master request the controller processes boundedly many requests, and once its queue is empty every namespace has the master's data, which never changed |

## Left out

- The Kubernetes client, caches and server-side-apply ownership: every call has an answer chosen freely; NotFound on a
  delete means that someone else removed the pod.
- Several replicas and leader election: the holder is one per process, and one is deployed
  (`config/manager/manager.yaml:16`).
- Reuse of a pod's name between listing and deleting it, graceful termination, and edits of a live pod's annotations:
  pods have identities that are never reused, and a delete removes the pod at once.
- Pods that pass by the webhook: refilled slots are admitted by it. Pods that were there before are arbitrary.
- Timers and back-off: in the rotation protocol and the secret controller a retry or resynchronisation is an event that
  may come at any time.
- Recovery from panics in the webhook.
- Defaulters.SetEnvVar: lists of variables, mounts and volumes are values. That the view taken earlier and the live list
  may share memory in Go is not captured; it could only show a replaced entry, whose name is the same.
- The branch in which a mount equals the volume (`internal/webhook/v1/pod_defaulters.go:140-143`) is not in the model: it
  can never be taken.
- Fields of pods and containers that no defaulter touches, and the text of errors.
- JSON decoding, struct validation and durations: they rest on libraries.
- SHA-256: only that a digest is not empty; `RotationLimits.BoundHoldsIffClosed` also needs two bundles with different
  digests.
- The TLS server, certificate watching, health checks and the patch of the webhook's CA bundle: plumbing with easy claims.
- Logging, with the managed namespaces and the audit of inactive features, which only choose log messages.
