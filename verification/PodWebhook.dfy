/** The admission pipeline (internal/webhook/v1/pod_webhook.go): the selected defaulters run one after the other. */
module PodWebhook {
  import opened Prelude
  import opened Features
  import opened Images
  import opened Pods
  import opened HashHolders
  import opened Defaulters
  import opened DefaulterProperties

  // ===== the pipeline on values =====

  /** The pod after the first n defaulters, each run with the configuration read for it. */
  function After(ds: seq<Defaulter>, cfgs: seq<Config>, n: nat, p: PodData, a: Admission): PodData
    requires n <= |ds| == |cfgs|
  {
    if n == 0 then p else Applied(ds[n - 1], After(ds, cfgs, n - 1, p, a), cfgs[n - 1], a)
  }

  /** Whether one of the first n defaulters reported a change. */
  predicate SomeReported(ds: seq<Defaulter>, cfgs: seq<Config>, n: nat, p: PodData, a: Admission)
    requires n <= |ds| == |cfgs|
  {
    n > 0 && (SomeReported(ds, cfgs, n - 1, p, a)
              || Reported(ds[n - 1], After(ds, cfgs, n - 1, p, a), cfgs[n - 1], a))
  }

  /** The admitted pod: marked as modified when some defaulter reported a change. */
  function Defaulted(ds: seq<Defaulter>, cfgs: seq<Config>, p: PodData, a: Admission): PodData
    requires |ds| == |cfgs|
  {
    var q := After(ds, cfgs, |ds|, p, a);
    if SomeReported(ds, cfgs, |ds|, p, a) then Annotated(q, MODIFIED, "true") else q
  }

  // ===== the code =====

  const DEFAULTER_ENTRIES := [ImgRegistry, PullSecret, TrustBundle, FipsMode, Landscape]

  function Rank(d: Defaulter): nat {
    match d
    case ImgRegistry => 0
    case PullSecret => 1
    case TrustBundle => 2
    case FipsMode => 3
    case Landscape => 4
  }

  /** The defaulters whose feature the catalogue lists, each once, in the fixed order of the entries. */
  ghost predicate Selection(available: seq<string>, ds: seq<Defaulter>) {
    && (forall d :: d in ds <==> Feature(d) in available)
    && forall i, j | 0 <= i < j < |ds| :: Rank(ds[i]) < Rank(ds[j])
  }

  method SelectDefaulters(available: seq<string>) returns (selected: seq<Defaulter>)
    ensures Selection(available, selected)
  {
    selected := [];
    for i := 0 to |DEFAULTER_ENTRIES|
      invariant forall d :: d in selected <==> Feature(d) in available && Rank(d) < i
      invariant forall j, k | 0 <= j < k < |selected| :: Rank(selected[j]) < Rank(selected[k])
    {
      var d := DEFAULTER_ENTRIES[i];
      assert Rank(d) == i;
      assert forall e :: Rank(e) == i ==> e == d;
      if Feature(d) in available {
        assert forall j | 0 <= j < |selected| :: selected[j] in selected;
        selected := selected + [d];
      }
    }
  }

  function Values(configs: seq<Result<Config, ApiError>>): (cfgs: seq<Config>)
    requires forall i | 0 <= i < |configs| :: configs[i].Ok?
    ensures |cfgs| == |configs|
  {
    seq(|configs|, i requires 0 <= i < |configs| => configs[i].value)
  }

  /** The i-th configuration is the first that cannot be read. */
  predicate CutAt(configs: seq<Result<Config, ApiError>>, i: nat, error: ApiError) {
    i < |configs| && configs[i] == Err(error) && forall j | 0 <= j < i :: configs[j].Ok?
  }

  /** What a run has done after n defaulters depends on these n only. */
  lemma {:induction false} AfterAgrees(ds: seq<Defaulter>, cfgs: seq<Config>, es: seq<Defaulter>, dfgs: seq<Config>,
                                       n: nat, p: PodData, a: Admission)
    requires n <= |ds| == |cfgs| && n <= |es| == |dfgs|
    requires forall i | 0 <= i < n :: ds[i] == es[i] && cfgs[i] == dfgs[i]
    ensures After(ds, cfgs, n, p, a) == After(es, dfgs, n, p, a)
  {
    if n > 0 {
      AfterAgrees(ds, cfgs, es, dfgs, n - 1, p, a);
    }
  }

  class PodCustomDefaulter {
    const defaulters: seq<Defaulter>
    const pullSecret: string
    const landscape: string
    const holder: HashHolder

    constructor (available: seq<string>, pullSecret: string, landscape: string, holder: HashHolder)
      ensures Selection(available, defaulters)
      ensures this.pullSecret == pullSecret && this.landscape == landscape && this.holder == holder
    {
      var selected := SelectDefaulters(available);
      this.defaulters, this.pullSecret, this.landscape, this.holder := selected, pullSecret, landscape, holder;
    }

    /**
     * Defaults the pod of one request. The namespace read and the configuration reads, one for each defaulter,
     * may fail; the first failure rejects the request.
     */
    method Default(pod: Pod, namespaceRead: Result<Annotations, ApiError>, configs: seq<Result<Config, ApiError>>)
      returns (err: Option<ApiError>)
      requires pod.Valid()
      requires |configs| == |defaulters|
      modifies pod, pod.initContainers, pod.containers
      ensures err.None? <==> namespaceRead.Ok? && forall i | 0 <= i < |configs| :: configs[i].Ok?
      ensures err.None? ==>
                pod.Data() == Defaulted(defaulters, Values(configs), old(pod.Data()),
                                        Admission(namespaceRead.value, pullSecret, landscape, holder.hash))
      ensures err.Some? && namespaceRead.Err? ==> err.value == namespaceRead.error && pod.Data() == old(pod.Data())
      ensures err.Some? && namespaceRead.Ok? ==>
                exists i: nat :: CutAt(configs, i, err.value) &&
                            pod.Data() == After(defaulters[..i], Values(configs[..i]), i, old(pod.Data()),
                                                Admission(namespaceRead.value, pullSecret, landscape, holder.hash))
    {
      if namespaceRead.Err? {
        return Some(namespaceRead.error);
      }
      ghost var p := pod.Data();
      ghost var a := Admission(namespaceRead.value, pullSecret, landscape, holder.hash);
      ghost var cfgs := seq(|configs|, i requires 0 <= i < |configs| =>
                            if configs[i].Ok? then configs[i].value else Config(map[], None, None, []));
      var podDefaulted := false;
      for i := 0 to |defaulters|
        invariant forall j | 0 <= j < i :: configs[j].Ok?
        invariant pod.Data() == After(defaulters, cfgs, i, p, a)
        invariant podDefaulted <==> SomeReported(defaulters, cfgs, i, p, a)
      {
        if configs[i].Err? {
          AfterAgrees(defaulters, cfgs, defaulters[..i], Values(configs[..i]), i, p, a);
          assert CutAt(configs, i, configs[i].error);
          return Some(configs[i].error);
        }
        var podModified := RunDefaulter(defaulters[i], pod, namespaceRead.value, configs[i].value,
                                        pullSecret, landscape, holder);
        if !podModified {
          continue;
        }
        podDefaulted := true;
      }
      assert cfgs == Values(configs);
      if !podDefaulted {
        return None;
      }
      pod.Annotate(MODIFIED, "true");
      return None;
    }
  }

  // ===== the mark =====

  /** A pod that left the pipeline different from how it came is marked. */
  lemma {:induction false} ChangeIsMarked(ds: seq<Defaulter>, cfgs: seq<Config>, p: PodData, a: Admission)
    requires |ds| == |cfgs|
    ensures Defaulted(ds, cfgs, p, a) != p ==> Lookup(Defaulted(ds, cfgs, p, a).annotations, MODIFIED) == "true"
  {
    if !SomeReported(ds, cfgs, |ds|, p, a) {
      SilentRunChangesNothing(ds, cfgs, |ds|, p, a);
    }
  }

  lemma {:induction false} SilentRunChangesNothing(ds: seq<Defaulter>, cfgs: seq<Config>, n: nat, p: PodData,
                                                   a: Admission)
    requires n <= |ds| == |cfgs|
    requires !SomeReported(ds, cfgs, n, p, a)
    ensures After(ds, cfgs, n, p, a) == p
  {
    if n > 0 {
      SilentRunChangesNothing(ds, cfgs, n - 1, p, a);
      UnreportedIsUnchanged(ds[n - 1], p, cfgs[n - 1], a);
    }
  }

  /** A pod for which no defaulter is asked is admitted untouched, without the mark. */
  lemma NothingAskedNothingChanged(ds: seq<Defaulter>, cfgs: seq<Config>, p: PodData, a: Admission)
    requires |ds| == |cfgs| && forall i | 0 <= i < |ds| :: !Asked(ds[i], p, cfgs[i], a.nsAnnotations)
    ensures Defaulted(ds, cfgs, p, a) == p
  {
    NothingAskedRun(ds, cfgs, |ds|, p, a);
  }

  lemma {:induction false} NothingAskedRun(ds: seq<Defaulter>, cfgs: seq<Config>, n: nat, p: PodData, a: Admission)
    requires n <= |ds| == |cfgs| && forall i | 0 <= i < |ds| :: !Asked(ds[i], p, cfgs[i], a.nsAnnotations)
    ensures After(ds, cfgs, n, p, a) == p && !SomeReported(ds, cfgs, n, p, a)
  {
    if n > 0 {
      NothingAskedRun(ds, cfgs, n - 1, p, a);
      UnaskedIsUntouched(ds[n - 1], p, cfgs[n - 1], a);
    }
  }

  // ===== the order =====

  /** A longer list runs its first part, then the rest on what came out. */
  lemma {:induction false} RunConcatenates(ds: seq<Defaulter>, cfgs: seq<Config>, es: seq<Defaulter>,
                                           dfgs: seq<Config>, p: PodData, a: Admission)
    requires |ds| == |cfgs| && |es| == |dfgs|
    ensures After(ds + es, cfgs + dfgs, |ds + es|, p, a) == After(es, dfgs, |es|, After(ds, cfgs, |ds|, p, a), a)
    decreases |es|
  {
    hide Applied;
    if es == [] {
      assert ds + es == ds && cfgs + dfgs == cfgs;
    } else {
      var k := |es| - 1;
      RunConcatenates(ds, cfgs, es[..k], dfgs[..k], p, a);
      AfterAgrees(ds + es, cfgs + dfgs, ds + es[..k], cfgs + dfgs[..k], |ds| + k, p, a);
      AfterAgrees(es, dfgs, es[..k], dfgs[..k], k, After(ds, cfgs, |ds|, p, a), a);
      assert (ds + es)[|ds| + k] == es[k] && (cfgs + dfgs)[|ds| + k] == dfgs[k];
    }
  }

  /** With the whole catalogue the webhook runs all five, in this order. */
  lemma FullSelection(available: seq<string>, ds: seq<Defaulter>)
    requires Selection(available, ds) && forall f | f in KNOWN_FEATURES :: f in available
    ensures ds == [ImgRegistry, PullSecret, TrustBundle, FipsMode, Landscape]
  {
    forall d: Defaulter
      ensures d in ds
    {
      KnownFeaturesAreServed(Feature(d));
    }
    RanksAreIndices(ds, 4);
    assert Landscape in ds;
    assert forall i | 0 <= i < |ds| :: Rank(ds[i]) == i;
  }

  lemma {:induction false} RanksAreIndices(ds: seq<Defaulter>, r: nat)
    requires r <= 4 && (forall d: Defaulter :: d in ds)
    requires forall i, j | 0 <= i < j < |ds| :: Rank(ds[i]) < Rank(ds[j])
    ensures r < |ds| <= 5 && forall i | 0 <= i <= r :: Rank(ds[i]) == i
  {
    var d := DEFAULTER_ENTRIES[r];
    assert d in ds;
    var at :| 0 <= at < |ds| && ds[at] == d;
    RankBounds(ds, at);
    RankBounds(ds, |ds| - 1);
    if r > 0 {
      RanksAreIndices(ds, r - 1);
      assert Rank(ds[r - 1]) == r - 1;
    }
  }

  /** Increasing ranks are at least their positions. */
  lemma {:induction false} RankBounds(ds: seq<Defaulter>, i: nat)
    requires i < |ds| && forall i, j | 0 <= i < j < |ds| :: Rank(ds[i]) < Rank(ds[j])
    ensures i <= Rank(ds[i])
  {
    if i > 0 {
      RankBounds(ds, i - 1);
    }
  }

  // ===== the frame =====

  const OWN_ENV := {KYMA_FIPS_MODE_ENABLED, FIPS_MODE_ENABLED, KYMA_LANDSCAPE}

  /**
   * Entries keep their order and position; only the first entry of a name in `own` may have a new content, and
   * only entries of such a name may have been appended.
   */
  ghost predicate Kept<T>(xs: seq<T>, xn: seq<string>, ys: seq<T>, yn: seq<string>, own: set<string>) {
    && |xs| == |xn| && |ys| == |yn| && xn <= yn
    && (forall i | 0 <= i < |xs| :: ys[i] == xs[i] || (xn[i] in own && xn[i] !in xn[..i]))
    && (forall i | |xs| <= i < |yn| :: yn[i] in own)
  }

  /** The text from the first slash on: everything of an image but its registry. */
  function Path(image: string): string {
    image[|FirstSegment(image)|..]
  }

  /** Only a registry may have been exchanged: what follows it still ends the image. */
  predicate ImageKept(before: string, after: string) {
    after == before || (HasRegistry(before) && EndsWith(after, Path(before)))
  }

  predicate EndsWith(s: string, tail: string) {
    |tail| <= |s| && s[|s| - |tail|..] == tail
  }

  ghost predicate ContainerKept(c: Container, d: Container, bundles: set<string>) {
    && d.name == c.name
    && ImageKept(c.image, d.image)
    && Kept(c.env, EnvNames(c.env), d.env, EnvNames(d.env), OWN_ENV)
    && Kept(c.volumeMounts, MountNames(c.volumeMounts), d.volumeMounts, MountNames(d.volumeMounts), bundles)
  }

  ghost predicate ContainersKept(cs: seq<Container>, ds: seq<Container>, bundles: set<string>) {
    |cs| == |ds| && forall i | 0 <= i < |cs| :: ContainerKept(cs[i], ds[i], bundles)
  }

  /** At most the configured secret is new, and it comes last. */
  predicate SecretsKept(before: seq<string>, after: seq<string>, secret: string) {
    after == before || (secret !in before && after == before + [secret])
  }

  /** What the webhook may not touch; `bundles` are the volume names of the configured trust bundles, `secret` is the
      configured pull secret. */
  ghost predicate PodKept(p: PodData, q: PodData, bundles: set<string>, secret: string) {
    && q.namespace == p.namespace && q.owners == p.owners
    && SameRequests(p.annotations, q.annotations)
    && ContainersKept(p.initContainers, q.initContainers, {})
    && ContainersKept(p.containers, q.containers, bundles)
    && Kept(p.volumes, VolumeNames(p.volumes), q.volumes, VolumeNames(q.volumes), bundles)
    && SecretsKept(p.imagePullSecrets, q.imagePullSecrets, secret)
  }

  function BundleNames(cfgs: seq<Config>): set<string> {
    set cfg | cfg in cfgs && cfg.trustBundle.Some? :: cfg.trustBundle.value.volumeName
  }

  lemma KeptTrans<T>(xs: seq<T>, xn: seq<string>, ys: seq<T>, yn: seq<string>, zs: seq<T>, zn: seq<string>,
                     own: set<string>)
    requires Kept(xs, xn, ys, yn, own) && Kept(ys, yn, zs, zn, own)
    ensures Kept(xs, xn, zs, zn, own)
  {
    forall i | 0 <= i < |xs|
      ensures zs[i] == xs[i] || (xn[i] in own && xn[i] !in xn[..i])
    {
      assert yn[..i] == xn[..i];
    }
  }

  /** A tail that starts with a slash lies within the path. */
  lemma TailInPath(image: string, tail: string)
    requires EndsWith(image, tail) && tail != "" && tail[0] == '/'
    ensures EndsWith(Path(image), tail)
  {
    var head := FirstSegment(image);
    var at := |image| - |tail|;
    assert image[at] == '/';
    assert at >= |head|;
    assert Path(image)[|Path(image)| - |tail|..] == image[at..];
  }

  lemma ImageKeptTrans(before: string, middle: string, after: string)
    requires ImageKept(before, middle) && ImageKept(middle, after)
    ensures ImageKept(before, after)
  {
    if middle != before && after != middle {
      var tail, path := Path(before), Path(middle);
      TailInPath(middle, tail);
      assert after[|after| - |path|..][|path| - |tail|..] == after[|after| - |tail|..];
    }
  }

  lemma ContainersKeptTrans(cs: seq<Container>, ds: seq<Container>, es: seq<Container>, bundles: set<string>)
    requires ContainersKept(cs, ds, bundles) && ContainersKept(ds, es, bundles)
    ensures ContainersKept(cs, es, bundles)
  {
    forall i | 0 <= i < |cs|
      ensures ContainerKept(cs[i], es[i], bundles)
    {
      var c, d, e := cs[i], ds[i], es[i];
      assert ContainerKept(c, d, bundles) && ContainerKept(d, e, bundles);
      ImageKeptTrans(c.image, d.image, e.image);
      KeptTrans(c.env, EnvNames(c.env), d.env, EnvNames(d.env), e.env, EnvNames(e.env), OWN_ENV);
      KeptTrans(c.volumeMounts, MountNames(c.volumeMounts), d.volumeMounts, MountNames(d.volumeMounts),
                e.volumeMounts, MountNames(e.volumeMounts), bundles);
    }
  }

  lemma PodKeptTrans(p: PodData, q: PodData, r: PodData, bundles: set<string>, secret: string)
    requires PodKept(p, q, bundles, secret) && PodKept(q, r, bundles, secret)
    ensures PodKept(p, r, bundles, secret)
  {
    ContainersKeptTrans(p.initContainers, q.initContainers, r.initContainers, {});
    ContainersKeptTrans(p.containers, q.containers, r.containers, bundles);
    KeptTrans(p.volumes, VolumeNames(p.volumes), q.volumes, VolumeNames(q.volumes),
              r.volumes, VolumeNames(r.volumes), bundles);
  }

  lemma EnvSetKept(env: seq<EnvVar>, name: string, value: string)
    requires name in OWN_ENV
    ensures Kept(env, EnvNames(env), EnvSet(env, name, value), EnvNames(EnvSet(env, name, value)), OWN_ENV)
  {
    EnvSetNames(env, name, value);
    EnvSetMeaning(env, name, value);
  }

  lemma FipsEnvKept(env: seq<EnvVar>)
    ensures Kept(env, EnvNames(env), FipsEnv(env), EnvNames(FipsEnv(env)), OWN_ENV)
  {
    var once := EnvSet(env, KYMA_FIPS_MODE_ENABLED, "true");
    EnvSetKept(env, KYMA_FIPS_MODE_ENABLED, "true");
    EnvSetKept(once, FIPS_MODE_ENABLED, "true");
    KeptTrans(env, EnvNames(env), once, EnvNames(once), FipsEnv(env), EnvNames(FipsEnv(env)), OWN_ENV);
  }

  lemma MountedKept(cs: seq<Container>, m: VolumeMount, bundles: set<string>)
    requires m.name in bundles
    ensures ContainersKept(cs, MountedContainers(cs, m), bundles)
  {
    forall i | 0 <= i < |cs|
      ensures ContainerKept(cs[i], MountedContainers(cs, m)[i], bundles)
    {
      MountPutMeaning(cs[i].volumeMounts, m);
    }
  }

  lemma ImagesKept(cs: seq<Container>, overrides: map<string, string>, bundles: set<string>)
    ensures ContainersKept(cs, ImagesRewritten(cs, overrides), bundles)
  {
    forall i | 0 <= i < |cs|
      ensures ContainerKept(cs[i], ImagesRewritten(cs, overrides)[i], bundles)
    {
      RewriteKeepsPath(cs[i].image, overrides);
    }
  }

  lemma RewriteKeepsPath(image: string, overrides: map<string, string>)
    ensures ImageKept(image, AlterPodImageRegistry(image, overrides))
  {
    hide AlterPodImageRegistry;
    RewriteReplacesRegistryOnly(image, overrides);
    var registry := FirstSegment(image);
    if HasRegistry(image) && registry in overrides {
      var after := overrides[registry] + Path(image);
      assert after[|after| - |Path(image)|..] == Path(image);
    }
  }

  lemma EnvEffectsKept(cs: seq<Container>, landscape: string, bundles: set<string>)
    ensures ContainersKept(cs, FipsContainers(cs), bundles)
    ensures ContainersKept(cs, LandscapeContainers(cs, landscape), bundles)
  {
    forall i | 0 <= i < |cs|
      ensures ContainerKept(cs[i], FipsContainers(cs)[i], bundles)
      ensures ContainerKept(cs[i], LandscapeContainers(cs, landscape)[i], bundles)
    {
      FipsEnvKept(cs[i].env);
      EnvSetKept(cs[i].env, KYMA_LANDSCAPE, landscape);
    }
  }

  lemma NothingTouched(p: PodData, bundles: set<string>)
    ensures ContainersKept(p.initContainers, p.initContainers, {})
    ensures ContainersKept(p.containers, p.containers, bundles)
    ensures Kept(p.volumes, VolumeNames(p.volumes), p.volumes, VolumeNames(p.volumes), bundles)
  {
  }

  lemma VolumeKept(volumes: seq<Volume>, v: Volume, bundles: set<string>)
    requires v.name in bundles
    ensures Kept(volumes, VolumeNames(volumes), VolumePut(volumes, v), VolumeNames(VolumePut(volumes, v)), bundles)
  {
    VolumePutMeaning(volumes, v);
  }

  lemma StepKept(d: Defaulter, p: PodData, cfg: Config, a: Admission, bundles: set<string>)
    requires cfg.trustBundle.Some? ==> cfg.trustBundle.value.volumeName in bundles
    ensures PodKept(p, Applied(d, p, cfg, a), bundles, a.pullSecret)
  {
    hide Kept, ContainersKept, SameRequests, Asked;
    NothingTouched(p, bundles);
    AppliedAnnotations(d, p, cfg, a);
    match d {
      case ImgRegistry =>
        ImagesKept(p.initContainers, cfg.overrides, {});
        ImagesKept(p.containers, cfg.overrides, bundles);
      case PullSecret =>
      case TrustBundle =>
        if cfg.trustBundle.Some? {
          var m := cfg.trustBundle.value;
          MountedKept(p.containers, BundleMount(m), bundles);
          VolumeKept(p.volumes, BundleVolume(m), bundles);
        }
      case FipsMode =>
        EnvEffectsKept(p.initContainers, a.landscape, {});
        EnvEffectsKept(p.containers, a.landscape, bundles);
      case Landscape =>
        EnvEffectsKept(p.initContainers, a.landscape, {});
        EnvEffectsKept(p.containers, a.landscape, bundles);
    }
  }

  lemma PodKeptAtFirst(p: PodData, bundles: set<string>, secret: string)
    ensures PodKept(p, p, bundles, secret)
  {
    hide Kept, ContainersKept;
    NothingTouched(p, bundles);
  }

  lemma {:induction false} RunKept(ds: seq<Defaulter>, cfgs: seq<Config>, n: nat, p: PodData, a: Admission)
    requires n <= |ds| == |cfgs|
    ensures PodKept(p, After(ds, cfgs, n, p, a), BundleNames(cfgs), a.pullSecret)
  {
    hide PodKept, Applied;
    if n == 0 {
      PodKeptAtFirst(p, BundleNames(cfgs), a.pullSecret);
    } else {
      RunKept(ds, cfgs, n - 1, p, a);
      var q := After(ds, cfgs, n - 1, p, a);
      assert cfgs[n - 1] in cfgs;
      StepKept(ds[n - 1], q, cfgs[n - 1], a, BundleNames(cfgs));
      PodKeptTrans(p, q, After(ds, cfgs, n, p, a), BundleNames(cfgs), a.pullSecret);
    }
  }

  /** Whatever runs and whatever it is configured with, the admitted pod keeps everything outside the frame. */
  lemma PipelineFrame(ds: seq<Defaulter>, cfgs: seq<Config>, p: PodData, a: Admission)
    requires |ds| == |cfgs|
    ensures PodKept(p, Defaulted(ds, cfgs, p, a), BundleNames(cfgs), a.pullSecret)
  {
    RunKept(ds, cfgs, |ds|, p, a);
  }

  // ===== admission and restart eligibility =====

  /** The restarter's test: owned, eligible, and not stamped with the wanted hash. */
  predicate Stale(p: PodData, desired: string) {
    && CTBRestartEnabled(p.annotations)
    && p.owners != []
    && Lookup(p.annotations, CTB_HASH) != desired
  }

  /** The test on the annotations as they are: a missing hash reads as the empty string. */
  lemma StaleRule(p: PodData, desired: string)
    ensures Stale(p, desired) <==>
            && |p.owners| > 0
            && (CTB_HASH in Entries(p.annotations)
                || (ADD_TRUST_BUNDLE in Entries(p.annotations) && Entries(p.annotations)[ADD_TRUST_BUNDLE] == "true"))
            && (if CTB_HASH in Entries(p.annotations) then Entries(p.annotations)[CTB_HASH] != desired
                else desired != "")
  {
  }

  /** What a run leaves in the hash annotation when the trust-bundle defaulter is at position i. */
  lemma {:induction false} HashAfter(ds: seq<Defaulter>, cfgs: seq<Config>, i: nat, n: nat, p: PodData, a: Admission)
    requires i < |ds| == |cfgs| && n <= |ds|
    requires ds[i].TrustBundle? && forall j | 0 <= j < |ds| && j != i :: !ds[j].TrustBundle?
    ensures After(ds, cfgs, n, p, a).annotations ==
            if i < n && a.hash != "" && Asked(TrustBundle, p, cfgs[i], a.nsAnnotations)
            then Some(Entries(p.annotations)[CTB_HASH := a.hash]) else p.annotations
  {
    hide Applied, Asked, Effect;
    if n > 0 {
      HashAfter(ds, cfgs, i, n - 1, p, a);
      var q := After(ds, cfgs, n - 1, p, a);
      AppliedAnnotations(ds[n - 1], q, cfgs[n - 1], a);
      if n - 1 == i {
        RunKept(ds, cfgs, n - 1, p, a);
        SameAsk(TrustBundle, p, q, cfgs[i], a.nsAnnotations);
      }
    }
  }

  /**
   * Admission closes eligibility: with a hash to stamp, an admitted owned pod is stale for that hash exactly when
   * the submitted pod brought another hash with it and nothing asked for the trust bundle.
   */
  lemma AdmittedStaleIff(ds: seq<Defaulter>, cfgs: seq<Config>, i: nat, p: PodData, a: Admission)
    requires i < |ds| == |cfgs| && a.hash != ""
    requires ds[i].TrustBundle? && forall j | 0 <= j < |ds| && j != i :: !ds[j].TrustBundle?
    ensures Stale(Defaulted(ds, cfgs, p, a), a.hash) <==>
            && p.owners != []
            && CTBHashPresent(p.annotations) && Lookup(p.annotations, CTB_HASH) != a.hash
            && !Asked(TrustBundle, p, cfgs[i], a.nsAnnotations)
  {
    var n := |ds|;
    HashAfter(ds, cfgs, i, n, p, a);
    RunKept(ds, cfgs, n, p, a);
    var q := After(ds, cfgs, n, p, a);
    var r := Defaulted(ds, cfgs, p, a);
    assert MODIFIED != CTB_HASH && MODIFIED != ADD_TRUST_BUNDLE && ADD_TRUST_BUNDLE != CTB_HASH;
    assert CTBRestartEnabled(r.annotations) <==> CTBRestartEnabled(q.annotations);
    assert Lookup(r.annotations, CTB_HASH) == Lookup(q.annotations, CTB_HASH);
    OptInRule(ADD_TRUST_BUNDLE, cfgs[i], p.namespace, a.nsAnnotations, p.annotations);
    if CTBMountEnabled(p.annotations) {
      assert LevelAsks(ADD_TRUST_BUNDLE, cfgs[i], p.annotations);
      assert "true" != "false";
    }
  }

  /**
   * What rotation can reach: a pod that asks for the trust bundle is restarted for other hashes later exactly when
   * there was a hash to stamp, or it brought one, or says "true" itself. A pod opted in by its namespace or by `all`
   * while the holder is empty gets the bundle and is never restarted.
   */
  lemma AskedIsEligibleIff(ds: seq<Defaulter>, cfgs: seq<Config>, i: nat, p: PodData, a: Admission)
    requires i < |ds| == |cfgs|
    requires ds[i].TrustBundle? && forall j | 0 <= j < |ds| && j != i :: !ds[j].TrustBundle?
    requires Asked(TrustBundle, p, cfgs[i], a.nsAnnotations)
    ensures var q := Defaulted(ds, cfgs, p, a);
            var reached := a.hash != "" || CTBHashPresent(p.annotations) || CTBMountEnabled(p.annotations);
            && (CTBRestartEnabled(q.annotations) <==> reached)
            && forall desired :: Stale(q, desired) <==>
                                 reached && p.owners != [] && Lookup(q.annotations, CTB_HASH) != desired
  {
    HashAfter(ds, cfgs, i, |ds|, p, a);
    RunKept(ds, cfgs, |ds|, p, a);
    assert MODIFIED != CTB_HASH && MODIFIED != ADD_TRUST_BUNDLE && ADD_TRUST_BUNDLE != CTB_HASH;
  }

  const NO_FEATURES := Config(map[], None, None, [])

  function NoFeatures(n: nat): (cfgs: seq<Config>)
    ensures |cfgs| == n
  {
    seq(n, _ => NO_FEATURES)
  }

  /** Such a pod: its namespace asks for the trust bundle, and no hash has been published yet. */
  lemma UnreachablePod(ds: seq<Defaulter>, i: nat, pullSecret: string, landscape: string) returns (p: PodData)
    requires i < |ds| && ds[i].TrustBundle? && forall j | 0 <= j < |ds| && j != i :: !ds[j].TrustBundle?
    ensures var a := Admission(Some(map[ADD_TRUST_BUNDLE := "true"]), pullSecret, landscape, "");
            && p.owners != [] && Asked(TrustBundle, p, NO_FEATURES, a.nsAnnotations)
            && var q := Defaulted(ds, NoFeatures(|ds|), p, a);
               forall desired :: !Stale(q, desired)
  {
    var a := Admission(Some(map[ADD_TRUST_BUNDLE := "true"]), pullSecret, landscape, "");
    p := PodData("ns", ["rs"], None, [], [], [], []);
    AskedRule(TrustBundle, p, NO_FEATURES, a.nsAnnotations);
    assert LevelAsks(ADD_TRUST_BUNDLE, NO_FEATURES, a.nsAnnotations);
    AskedIsEligibleIff(ds, NoFeatures(|ds|), i, p, a);
  }

  /** A pod without a hash of its own never leaves admission stale, under any configuration. */
  lemma AdmissionClosesEligibility(ds: seq<Defaulter>, cfgs: seq<Config>, i: nat, p: PodData, a: Admission)
    requires i < |ds| == |cfgs| && a.hash != ""
    requires ds[i].TrustBundle? && forall j | 0 <= j < |ds| && j != i :: !ds[j].TrustBundle?
    requires !CTBHashPresent(p.annotations)
    ensures var q := Defaulted(ds, cfgs, p, a);
            CTBRestartEnabled(q.annotations) ==> Lookup(q.annotations, CTB_HASH) == a.hash
  {
    var owned := p.(owners := ["owner"]);
    AdmittedStaleIff(ds, cfgs, i, owned, a);
    HashAfter(ds, cfgs, i, |ds|, owned, a);
    HashAfter(ds, cfgs, i, |ds|, p, a);
    assert Asked(TrustBundle, owned, cfgs[i], a.nsAnnotations) <==> Asked(TrustBundle, p, cfgs[i], a.nsAnnotations);
    RunKept(ds, cfgs, |ds|, owned, a);
  }

  /** A pod can only leave admission with the hash the holder had, or with the one it came with. */
  lemma AdmittedHash(ds: seq<Defaulter>, cfgs: seq<Config>, i: nat, p: PodData, a: Admission)
    requires i < |ds| == |cfgs|
    requires ds[i].TrustBundle? && forall j | 0 <= j < |ds| && j != i :: !ds[j].TrustBundle?
    ensures var q := Defaulted(ds, cfgs, p, a);
            CTBHashPresent(q.annotations) ==>
              || (a.hash != "" && Lookup(q.annotations, CTB_HASH) == a.hash)
              || (CTBHashPresent(p.annotations) && Lookup(q.annotations, CTB_HASH) == Lookup(p.annotations, CTB_HASH))
  {
    HashAfter(ds, cfgs, i, |ds|, p, a);
    assert MODIFIED != CTB_HASH;
  }

  /**
   * A pod that says "false" is never stamped, and is restarted all the same when it came with another hash, and only
   * then: that hash alone makes it eligible, whatever it asks for itself.
   */
  lemma OptedOutPodIsStaleIff(ds: seq<Defaulter>, cfgs: seq<Config>, i: nat, p: PodData, a: Admission, desired: string)
    requires i < |ds| == |cfgs| && CTBExplicitOptOut(p.annotations)
    requires ds[i].TrustBundle? && forall j | 0 <= j < |ds| && j != i :: !ds[j].TrustBundle?
    ensures Stale(Defaulted(ds, cfgs, p, a), desired) <==>
            p.owners != [] && CTBHashPresent(p.annotations) && Lookup(p.annotations, CTB_HASH) != desired
  {
    HashAfter(ds, cfgs, i, |ds|, p, a);
    RunKept(ds, cfgs, |ds|, p, a);
    assert MODIFIED != CTB_HASH && MODIFIED != ADD_TRUST_BUNDLE && ADD_TRUST_BUNDLE != CTB_HASH && "false" != "true";
  }

  /** Admission under this configuration and these namespace annotations leaves the pod up to date. */
  predicate KeptUpToDate(p: PodData, cfg: Config, nsAnnotations: Annotations) {
    !CTBHashPresent(p.annotations) || p.owners == [] || Asked(TrustBundle, p, cfg, nsAnnotations)
  }

  lemma AdmittedUpToDate(ds: seq<Defaulter>, cfgs: seq<Config>, i: nat, p: PodData, a: Admission)
    requires i < |ds| == |cfgs| && a.hash != "" && KeptUpToDate(p, cfgs[i], a.nsAnnotations)
    requires ds[i].TrustBundle? && forall j | 0 <= j < |ds| && j != i :: !ds[j].TrustBundle?
    ensures !Stale(Defaulted(ds, cfgs, p, a), a.hash)
  {
    AdmittedStaleIff(ds, cfgs, i, p, a);
  }

  /** Every pod made from such a template leaves admission up to date, whatever the configuration. */
  predicate Closed(template: PodData) {
    !CTBHashPresent(template.annotations) || CTBMountEnabled(template.annotations) || template.owners == []
  }

  lemma ClosedIff(template: PodData)
    ensures Closed(template) <==>
            forall cfg: Config, nsAnnotations: Annotations :: KeptUpToDate(template, cfg, nsAnnotations)
  {
    forall cfg: Config, nsAnnotations: Annotations | Closed(template)
      ensures KeptUpToDate(template, cfg, nsAnnotations)
    {
      AskedRule(TrustBundle, template, cfg, nsAnnotations);
      assert "true" != "false";
    }
    AskedRule(TrustBundle, template, NO_FEATURES, None);
    assert Closed(template) || !KeptUpToDate(template, NO_FEATURES, None);
  }
}
