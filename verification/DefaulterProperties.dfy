/** What one defaulter guarantees about the pod it returns. */
module DefaulterProperties {
  import opened Prelude
  import opened Features
  import opened Images
  import opened Pods
  import opened Defaulters

  // ----- environment variables -----

  /** The first entry of that name exists and has that value. */
  predicate EnvFirstIs(env: seq<EnvVar>, name: string, value: string) {
    var at := IndexOfName(EnvNames(env), name);
    at.Some? && env[at.value].value == value
  }

  /**
   * Setting a variable makes its first entry carry the value, changes nothing when it already does, makes the entry a
   * plain one when it did not, and leaves every other entry, a later one of the same name included, as it is.
   */
  lemma EnvSetMeaning(env: seq<EnvVar>, name: string, value: string)
    ensures var r := EnvSet(env, name, value);
            && EnvFirstIs(r, name, value)
            && (r == env <==> EnvFirstIs(env, name, value))
            && |r| == (if name in EnvNames(env) then |env| else |env| + 1)
            && (!EnvFirstIs(env, name, value) ==> r[IndexOfName(EnvNames(r), name).value] == EnvVar(name, value, None))
            && forall i | 0 <= i < |env| && IndexOfName(EnvNames(env), name) != Some(i) :: r[i] == env[i]
  {
    var r := EnvSet(env, name, value);
    EnvSetNames(env, name, value);
    if name in EnvNames(env) {
      assert EnvNames(r) == EnvNames(env);
    } else {
      FirstOccurrence(EnvNames(r), name, |env|);
    }
  }

  /** Setting another variable neither moves nor changes the first entry of this one. */
  lemma EnvSetKeepsOther(env: seq<EnvVar>, name: string, value: string, other: string, otherValue: string)
    requires name != other
    ensures EnvFirstIs(EnvSet(env, other, otherValue), name, value) <==> EnvFirstIs(env, name, value)
  {
    EnvSetNames(env, other, otherValue);
    EnvSetMeaning(env, other, otherValue);
    SearchInPrefix(EnvNames(env), EnvNames(EnvSet(env, other, otherValue)), name);
  }

  /**
   * f is e after giving these variables the value: a first entry of such a name is either as it came or plainly set,
   * missing ones are appended, and every other entry keeps its content and position.
   */
  predicate EnvOnly(e: seq<EnvVar>, f: seq<EnvVar>, names: set<string>, value: string) {
    && EnvNames(e) <= EnvNames(f)
    && forall i | 0 <= i < |f| :: (i < |e| && f[i] == e[i]) || SetAt(f, i, names, value)
  }

  /** A plain entry with the value, the first of one of these names. */
  predicate SetAt(f: seq<EnvVar>, i: nat, names: set<string>, value: string)
    requires i < |f|
  {
    f[i].name in names && f[i].name !in EnvNames(f)[..i] && f[i] == EnvVar(f[i].name, value, None)
  }

  lemma EnvOnlyTrans(e: seq<EnvVar>, f: seq<EnvVar>, g: seq<EnvVar>, m: set<string>, n: set<string>, value: string)
    requires EnvOnly(e, f, m, value) && EnvOnly(f, g, n, value)
    ensures EnvOnly(e, g, m + n, value)
  {
    forall i | 0 <= i < |g|
      ensures (i < |e| && g[i] == e[i]) || SetAt(g, i, m + n, value)
    {
      if i < |f| {
        assert EnvNames(g)[..i] == EnvNames(f)[..i];
        assert (i < |e| && f[i] == e[i]) || SetAt(f, i, m, value);
      }
      assert (i < |f| && g[i] == f[i]) || SetAt(g, i, n, value);
    }
  }

  lemma EnvSetOnly(env: seq<EnvVar>, name: string, value: string)
    ensures EnvOnly(env, EnvSet(env, name, value), {name}, value)
  {
    EnvSetMeaning(env, name, value);
    EnvSetNames(env, name, value);
  }

  lemma FipsEnvOnly(env: seq<EnvVar>)
    ensures EnvOnly(env, FipsEnv(env), {KYMA_FIPS_MODE_ENABLED, FIPS_MODE_ENABLED}, "true")
  {
    var once := EnvSet(env, KYMA_FIPS_MODE_ENABLED, "true");
    EnvSetOnly(env, KYMA_FIPS_MODE_ENABLED, "true");
    EnvSetOnly(once, FIPS_MODE_ENABLED, "true");
    EnvOnlyTrans(env, once, FipsEnv(env), {KYMA_FIPS_MODE_ENABLED}, {FIPS_MODE_ENABLED}, "true");
    assert {KYMA_FIPS_MODE_ENABLED} + {FIPS_MODE_ENABLED} == {KYMA_FIPS_MODE_ENABLED, FIPS_MODE_ENABLED};
  }

  /** Nothing but these variables is touched in any container. */
  predicate OnlyEnvSet(cs: seq<Container>, ds: seq<Container>, names: set<string>, value: string) {
    && |cs| == |ds|
    && forall i | 0 <= i < |cs| :: ds[i] == cs[i].(env := ds[i].env) && EnvOnly(cs[i].env, ds[i].env, names, value)
  }

  lemma FipsContainersOnly(cs: seq<Container>)
    ensures OnlyEnvSet(cs, FipsContainers(cs), {KYMA_FIPS_MODE_ENABLED, FIPS_MODE_ENABLED}, "true")
  {
    forall i | 0 <= i < |cs|
      ensures EnvOnly(cs[i].env, FipsContainers(cs)[i].env, {KYMA_FIPS_MODE_ENABLED, FIPS_MODE_ENABLED}, "true")
    {
      FipsEnvOnly(cs[i].env);
    }
  }

  lemma LandscapeContainersOnly(cs: seq<Container>, landscape: string)
    ensures OnlyEnvSet(cs, LandscapeContainers(cs, landscape), {KYMA_LANDSCAPE}, landscape)
  {
    forall i | 0 <= i < |cs|
      ensures EnvOnly(cs[i].env, LandscapeContainers(cs, landscape)[i].env, {KYMA_LANDSCAPE}, landscape)
    {
      EnvSetOnly(cs[i].env, KYMA_LANDSCAPE, landscape);
    }
  }

  predicate FipsReady(c: Container) {
    EnvFirstIs(c.env, KYMA_FIPS_MODE_ENABLED, "true") && EnvFirstIs(c.env, FIPS_MODE_ENABLED, "true")
  }

  /** A container keeps its environment exactly when both variables were already right. */
  lemma FipsEnvMeaning(c: Container)
    ensures FipsReady(c.(env := FipsEnv(c.env)))
    ensures FipsEnv(c.env) == c.env <==> FipsReady(c)
  {
    var once := EnvSet(c.env, KYMA_FIPS_MODE_ENABLED, "true");
    EnvSetMeaning(c.env, KYMA_FIPS_MODE_ENABLED, "true");
    EnvSetMeaning(once, FIPS_MODE_ENABLED, "true");
    EnvSetKeepsOther(once, KYMA_FIPS_MODE_ENABLED, "true", FIPS_MODE_ENABLED, "true");
    FipsChanges(c.env);
  }

  predicate AllFipsReady(cs: seq<Container>) {
    forall i | 0 <= i < |cs| :: FipsReady(cs[i])
  }

  lemma FipsContainersMeaning(cs: seq<Container>)
    ensures AllFipsReady(FipsContainers(cs))
    ensures FipsContainers(cs) == cs <==> AllFipsReady(cs)
  {
    var r := FipsContainers(cs);
    forall i | 0 <= i < |cs|
      ensures FipsReady(r[i]) && (r[i] == cs[i] <==> FipsReady(cs[i]))
    {
      FipsEnvMeaning(cs[i]);
    }
    if r == cs {
      assert forall i | 0 <= i < |cs| :: r[i] == cs[i];
    }
  }

  /** After FIPS defaulting every container, init containers included, reads "true" from both variables;
      the report says whether some container was not like that before. */
  lemma FipsDefaulting(p: PodData, cfg: Config, a: Admission)
    requires Asked(FipsMode, p, cfg, a.nsAnnotations)
    ensures var q := Applied(FipsMode, p, cfg, a);
            var own := {KYMA_FIPS_MODE_ENABLED, FIPS_MODE_ENABLED};
            && AllFipsReady(q.initContainers) && AllFipsReady(q.containers)
            && OnlyEnvSet(p.initContainers, q.initContainers, own, "true")
            && OnlyEnvSet(p.containers, q.containers, own, "true")
            && q == p.(initContainers := q.initContainers, containers := q.containers)
            && (Reported(FipsMode, p, cfg, a) <==> !AllFipsReady(p.initContainers) || !AllFipsReady(p.containers))
  {
    hide OnlyEnvSet;
    FipsContainersOnly(p.initContainers);
    FipsContainersOnly(p.containers);
    FipsContainersMeaning(p.initContainers);
    FipsContainersMeaning(p.containers);
  }

  lemma LandscapeFixes(cs: seq<Container>, landscape: string)
    ensures LandscapeContainers(cs, landscape) == cs <==>
            forall i | 0 <= i < |cs| :: EnvFirstIs(cs[i].env, KYMA_LANDSCAPE, landscape)
  {
    forall i | 0 <= i < |cs|
      ensures LandscapeContainers(cs, landscape)[i] == cs[i] <==> EnvFirstIs(cs[i].env, KYMA_LANDSCAPE, landscape)
    {
      EnvSetMeaning(cs[i].env, KYMA_LANDSCAPE, landscape);
    }
    if LandscapeContainers(cs, landscape) == cs {
      assert forall i | 0 <= i < |cs| :: LandscapeContainers(cs, landscape)[i] == cs[i];
    }
  }

  predicate AllLandscapeReady(cs: seq<Container>, landscape: string) {
    forall i | 0 <= i < |cs| :: EnvFirstIs(cs[i].env, KYMA_LANDSCAPE, landscape)
  }

  /** Likewise for the landscape identifier. */
  lemma LandscapeDefaulting(p: PodData, cfg: Config, a: Admission)
    requires Asked(Landscape, p, cfg, a.nsAnnotations)
    ensures var q := Applied(Landscape, p, cfg, a);
            && AllLandscapeReady(q.initContainers, a.landscape) && AllLandscapeReady(q.containers, a.landscape)
            && OnlyEnvSet(p.initContainers, q.initContainers, {KYMA_LANDSCAPE}, a.landscape)
            && OnlyEnvSet(p.containers, q.containers, {KYMA_LANDSCAPE}, a.landscape)
            && q == p.(initContainers := q.initContainers, containers := q.containers)
            && (Reported(Landscape, p, cfg, a) <==>
                  !(AllLandscapeReady(p.initContainers, a.landscape) && AllLandscapeReady(p.containers, a.landscape)))
  {
    hide OnlyEnvSet;
    LandscapeContainersOnly(p.initContainers, a.landscape);
    LandscapeContainersOnly(p.containers, a.landscape);
    LandscapeFixes(p.initContainers, a.landscape);
    LandscapeFixes(p.containers, a.landscape);
    forall env
      ensures EnvFirstIs(EnvSet(env, KYMA_LANDSCAPE, a.landscape), KYMA_LANDSCAPE, a.landscape)
    {
      EnvSetMeaning(env, KYMA_LANDSCAPE, a.landscape);
    }
  }

  // ----- images and pull secrets -----

  /** The image with its registry replaced, on the text: what stands before the first slash is exchanged. */
  predicate RegistryExchanged(before: string, after: string, overrides: map<string, string>) {
    var registry := FirstSegment(before);
    after == if HasRegistry(before) && registry in overrides then overrides[registry] + before[|registry|..] else before
  }

  predicate AllExchanged(cs: seq<Container>, ds: seq<Container>, overrides: map<string, string>) {
    && |cs| == |ds|
    && forall i | 0 <= i < |cs| :: ds[i] == cs[i].(image := ds[i].image)
           && RegistryExchanged(cs[i].image, ds[i].image, overrides)
  }

  /** The image's registry is overridden by something else. */
  predicate Exchanged(image: string, overrides: map<string, string>) {
    var registry := FirstSegment(image);
    HasRegistry(image) && registry in overrides && overrides[registry] != registry
  }

  predicate SomeExchanged(cs: seq<Container>, overrides: map<string, string>) {
    exists i :: 0 <= i < |cs| && Exchanged(cs[i].image, overrides)
  }

  lemma ExchangeChanges(image: string, overrides: map<string, string>)
    ensures RegistryExchanged(image, AlterPodImageRegistry(image, overrides), overrides)
    ensures AlterPodImageRegistry(image, overrides) != image <==> Exchanged(image, overrides)
  {
    RewriteReplacesRegistryOnly(image, overrides);
    var registry := FirstSegment(image);
    if HasRegistry(image) && registry in overrides {
      var target, path := overrides[registry], image[|registry|..];
      assert image == registry + path;
      if target + path == registry + path {
        assert |target| == |registry|;
        assert (target + path)[..|target|] == target && (registry + path)[..|registry|] == registry;
      }
    }
  }

  lemma ImagesExchanged(cs: seq<Container>, overrides: map<string, string>)
    ensures AllExchanged(cs, ImagesRewritten(cs, overrides), overrides)
    ensures ImagesRewritten(cs, overrides) != cs <==> SomeExchanged(cs, overrides)
  {
    var ds := ImagesRewritten(cs, overrides);
    forall i | 0 <= i < |cs|
      ensures RegistryExchanged(cs[i].image, ds[i].image, overrides)
      ensures ds[i] != cs[i] <==> Exchanged(cs[i].image, overrides)
    {
      ExchangeChanges(cs[i].image, overrides);
    }
  }

  /** Every container, init containers included, has its registry exchanged and nothing else touched; reported when some
      registry is overridden by another. */
  lemma ImageDefaulting(p: PodData, cfg: Config, a: Admission)
    requires Asked(ImgRegistry, p, cfg, a.nsAnnotations)
    ensures var q := Applied(ImgRegistry, p, cfg, a);
            && AllExchanged(p.initContainers, q.initContainers, cfg.overrides)
            && AllExchanged(p.containers, q.containers, cfg.overrides)
            && q == p.(initContainers := q.initContainers, containers := q.containers)
            && (Reported(ImgRegistry, p, cfg, a) <==>
                  SomeExchanged(p.initContainers, cfg.overrides) || SomeExchanged(p.containers, cfg.overrides))
  {
    hide AllExchanged, SomeExchanged, ImagesRewritten;
    ImagesExchanged(p.initContainers, cfg.overrides);
    ImagesExchanged(p.containers, cfg.overrides);
  }

  /** The configured secret ends up in the list, at its end unless it was there, and no other secret goes; reported when
      it was missing. */
  lemma PullSecretDefaulting(p: PodData, cfg: Config, a: Admission)
    requires Asked(PullSecret, p, cfg, a.nsAnnotations)
    ensures var q := Applied(PullSecret, p, cfg, a);
            && a.pullSecret in q.imagePullSecrets
            && p.imagePullSecrets <= q.imagePullSecrets
            && |q.imagePullSecrets| == |p.imagePullSecrets| + (if a.pullSecret in p.imagePullSecrets then 0 else 1)
            && (Reported(PullSecret, p, cfg, a) <==> a.pullSecret !in p.imagePullSecrets)
            && q == p.(imagePullSecrets := q.imagePullSecrets)
  {
    var secrets := p.imagePullSecrets;
    assert (secrets + [a.pullSecret])[|secrets|] == a.pullSecret;
  }

  // ----- the trust bundle -----

  /** ys is xs with the first entry of that name replaced, or with one entry appended when there was none. */
  predicate OnlyPut<T(==)>(xs: seq<T>, xn: seq<string>, ys: seq<T>, name: string) {
    && |xs| == |xn|
    && |ys| == (if name in xn then |xs| else |xs| + 1)
    && forall i | 0 <= i < |xs| && IndexOfName(xn, name) != Some(i) :: ys[i] == xs[i]
  }

  predicate VolumeFirst(volumes: seq<Volume>, v: Volume) {
    var at := IndexOfName(VolumeNames(volumes), v.name);
    at.Some? && volumes[at.value] == v
  }

  lemma VolumePutMeaning(volumes: seq<Volume>, v: Volume)
    ensures var r := VolumePut(volumes, v);
            var at := IndexOfName(VolumeNames(r), v.name);
            && at.Some? && r[at.value] == v
            && VolumePut(r, v) == r
            && (r == volumes <==> VolumeFirst(volumes, v))
            && OnlyPut(volumes, VolumeNames(volumes), r, v.name)
  {
    var r := VolumePut(volumes, v);
    if v.name in VolumeNames(volumes) {
      assert VolumeNames(r) == VolumeNames(volumes);
    } else {
      assert VolumeNames(r) == VolumeNames(volumes) + [v.name];
      FirstOccurrence(VolumeNames(r), v.name, |volumes|);
    }
  }

  lemma MountPutMeaning(mounts: seq<VolumeMount>, m: VolumeMount)
    ensures var r := MountPut(mounts, m);
            var at := IndexOfName(MountNames(r), m.name);
            && at.Some? && r[at.value] == m
            && MountPut(r, m) == r
            && OnlyPut(mounts, MountNames(mounts), r, m.name)
  {
    var r := MountPut(mounts, m);
    if m.name in MountNames(mounts) {
      assert MountNames(r) == MountNames(mounts);
    } else {
      assert MountNames(r) == MountNames(mounts) + [m.name];
      FirstOccurrence(MountNames(r), m.name, |mounts|);
    }
  }

  /** The first volume of the configured name projects the configured bundle to the configured path. */
  predicate ProjectsBundle(volumes: seq<Volume>, m: TrustBundleMapping) {
    var at := IndexOfName(VolumeNames(volumes), m.volumeName);
    && at.Some?
    && var source := volumes[at.value].source;
       source.TrustBundleProjection? && source.bundle == m.name && source.path == m.certWritePath
  }

  /** The first mount of the configured name is read-only, at the configured path, of the whole volume. */
  predicate MountsBundle(mounts: seq<VolumeMount>, m: TrustBundleMapping) {
    var at := IndexOfName(MountNames(mounts), m.volumeName);
    && at.Some?
    && var mount := mounts[at.value];
       mount.readOnly && mount.mountPath == m.volumeMountPath && mount.subPath == ""
  }

  /** d is c with the mount, and otherwise as it came. */
  predicate MountedOnly(c: Container, d: Container, m: TrustBundleMapping) {
    && MountsBundle(d.volumeMounts, m)
    && d == c.(volumeMounts := d.volumeMounts)
    && OnlyPut(c.volumeMounts, MountNames(c.volumeMounts), d.volumeMounts, m.volumeName)
  }

  /**
   * Once asked, with a mapping: the pod has the configured projection, every main container mounts it by that very
   * name, and every other volume and mount and the init containers are as they came. Without one only the stamp is
   * written.
   * The report says whether a hash was stamped, the projection was missing, or there is a main container.
   */
  lemma TrustBundleDefaulting(p: PodData, cfg: Config, a: Admission)
    requires Asked(TrustBundle, p, cfg, a.nsAnnotations)
    ensures var q := Applied(TrustBundle, p, cfg, a);
            && q == p.(volumes := q.volumes, containers := q.containers, annotations := q.annotations)
            && q.annotations == (if a.hash == "" then p.annotations
                                 else Some(Entries(p.annotations)[CTB_HASH := a.hash]))
            && (cfg.trustBundle.None? ==> q.volumes == p.volumes && q.containers == p.containers)
    ensures cfg.trustBundle.Some? ==>
              var q := Applied(TrustBundle, p, cfg, a);
              var m := cfg.trustBundle.value;
              && ProjectsBundle(q.volumes, m)
              && OnlyPut(p.volumes, VolumeNames(p.volumes), q.volumes, m.volumeName)
              && |q.containers| == |p.containers|
              && forall i | 0 <= i < |p.containers| :: MountedOnly(p.containers[i], q.containers[i], m)
    ensures Reported(TrustBundle, p, cfg, a) <==>
            || a.hash != ""
            || (cfg.trustBundle.Some? && (p.containers != [] || !ProjectsBundle(p.volumes, cfg.trustBundle.value)))
  {
    if cfg.trustBundle.Some? {
      var m := cfg.trustBundle.value;
      VolumePutMeaning(p.volumes, BundleVolume(m));
      ProjectionIsVolume(p.volumes, m);
      forall i | 0 <= i < |p.containers|
        ensures MountedOnly(p.containers[i], Applied(TrustBundle, p, cfg, a).containers[i], m)
      {
        MountPutMeaning(p.containers[i].volumeMounts, BundleMount(m));
      }
    }
  }

  lemma ProjectionIsVolume(volumes: seq<Volume>, m: TrustBundleMapping)
    ensures ProjectsBundle(volumes, m) <==> VolumeFirst(volumes, BundleVolume(m))
  {
  }

  /** A defaulter that is not asked leaves the pod alone and reports nothing. */
  lemma UnaskedIsUntouched(d: Defaulter, p: PodData, cfg: Config, a: Admission)
    requires !Asked(d, p, cfg, a.nsAnnotations)
    ensures Applied(d, p, cfg, a) == p && !Reported(d, p, cfg, a)
  {
  }

  /** The report is sound one way only: an unreported pod is unchanged... */
  lemma UnreportedIsUnchanged(d: Defaulter, p: PodData, cfg: Config, a: Admission)
    requires !Reported(d, p, cfg, a)
    ensures Applied(d, p, cfg, a) == p
  {
    if d.TrustBundle? && cfg.trustBundle.Some? && p.containers == [] {
      assert MountedContainers(p.containers, BundleMount(cfg.trustBundle.value)) == [];
    }
  }

  /** ... but running the trust-bundle defaulter on its own output reports a change although there is none,
      exactly when the pod has a main container to mount into or there is a hash to stamp. */
  lemma TrustBundleReportsAgain(p: PodData, cfg: Config, a: Admission)
    requires Asked(TrustBundle, p, cfg, a.nsAnnotations)
    ensures var q := Applied(TrustBundle, p, cfg, a);
            && Applied(TrustBundle, q, cfg, a) == q
            && (Reported(TrustBundle, q, cfg, a) <==> a.hash != "" || (cfg.trustBundle.Some? && p.containers != []))
  {
    var q := Applied(TrustBundle, p, cfg, a);
    SameAsk(TrustBundle, p, q, cfg, a.nsAnnotations);
    if a.hash != "" {
      assert Entries(q.annotations)[CTB_HASH := a.hash] == Entries(q.annotations);
    }
    if cfg.trustBundle.Some? {
      var m := cfg.trustBundle.value;
      VolumePutMeaning(p.volumes, BundleVolume(m));
      forall i | 0 <= i < |p.containers|
        ensures MountPut(q.containers[i].volumeMounts, BundleMount(m)) == q.containers[i].volumeMounts
      {
        MountPutMeaning(p.containers[i].volumeMounts, BundleMount(m));
      }
      assert MountedContainers(q.containers, BundleMount(m)) == q.containers;
    }
  }

  // ----- annotations -----

  /** The annotations differ at most in the two keys the webhook writes itself. */
  ghost predicate SameRequests(a: Annotations, b: Annotations) {
    forall k | k != CTB_HASH && k != MODIFIED ::
      (k in Entries(a) <==> k in Entries(b)) && (k in Entries(a) ==> Entries(a)[k] == Entries(b)[k])
  }

  /** The hash stamp and the modified mark change no defaulter's opt-in. */
  lemma SameAsk(d: Defaulter, p: PodData, q: PodData, cfg: Config, nsAnnotations: Annotations)
    requires p.namespace == q.namespace && SameRequests(p.annotations, q.annotations)
    ensures Asked(d, p, cfg, nsAnnotations) <==> Asked(d, q, cfg, nsAnnotations)
  {
    var f := Feature(d);
    assert f != ALL && f != CTB_HASH && f != MODIFIED && ALL != CTB_HASH && ALL != MODIFIED;
    assert ADD_TRUST_BUNDLE != CTB_HASH && ADD_TRUST_BUNDLE != MODIFIED;
    OptInRule(f, cfg, p.namespace, nsAnnotations, p.annotations);
    OptInRule(f, cfg, q.namespace, nsAnnotations, q.annotations);
  }

  /** Only the trust-bundle defaulter writes an annotation, and only the hash. */
  lemma AppliedAnnotations(d: Defaulter, p: PodData, cfg: Config, a: Admission)
    ensures var q := Applied(d, p, cfg, a);
            && q.namespace == p.namespace && q.owners == p.owners
            && SameRequests(p.annotations, q.annotations)
            && q.annotations ==
               if d.TrustBundle? && a.hash != "" && Asked(d, p, cfg, a.nsAnnotations)
               then Some(Entries(p.annotations)[CTB_HASH := a.hash]) else p.annotations
  {
  }

  /** A defaulter runs exactly when one level asks for it; the trust-bundle one never against a pod's "false". */
  lemma AskedRule(d: Defaulter, p: PodData, cfg: Config, nsAnnotations: Annotations)
    ensures Asked(d, p, cfg, nsAnnotations) <==>
            && !(d.TrustBundle? && Lookup(p.annotations, ADD_TRUST_BUNDLE) == "false")
            && (ListAsks(Feature(d), cfg, p.namespace) || LevelAsks(Feature(d), cfg, nsAnnotations)
                || LevelAsks(Feature(d), cfg, p.annotations))
  {
    OptInRule(Feature(d), cfg, p.namespace, nsAnnotations, p.annotations);
  }

  /** Some level asks for the feature. */
  predicate SomeLevelAsks(feature: string, p: PodData, cfg: Config, nsAnnotations: Annotations) {
    || ListAsks(feature, cfg, p.namespace)
    || LevelAsks(feature, cfg, nsAnnotations)
    || LevelAsks(feature, cfg, p.annotations)
  }

  /** Every defaulter answers to its own annotation. */
  lemma AskedByName(p: PodData, cfg: Config, ns: Annotations)
    ensures Asked(ImgRegistry, p, cfg, ns) <==> SomeLevelAsks("rt-cfg.kyma-project.io/alter-img-registry", p, cfg, ns)
    ensures Asked(PullSecret, p, cfg, ns) <==> SomeLevelAsks("rt-cfg.kyma-project.io/add-img-pull-secret", p, cfg, ns)
    ensures Asked(FipsMode, p, cfg, ns) <==> SomeLevelAsks("rt-cfg.kyma-project.io/set-fips-mode", p, cfg, ns)
    ensures Asked(Landscape, p, cfg, ns) <==> SomeLevelAsks("rt-cfg.kyma-project.io/set-landscape", p, cfg, ns)
    ensures Asked(TrustBundle, p, cfg, ns) <==>
            && SomeLevelAsks("rt-cfg.kyma-project.io/add-cluster-trust-bundle", p, cfg, ns)
            && Lookup(p.annotations, "rt-cfg.kyma-project.io/add-cluster-trust-bundle") != "false"
  {
    hide OptedIn, LevelAsks, ListAsks;
    AskedRule(ImgRegistry, p, cfg, ns);
    AskedRule(PullSecret, p, cfg, ns);
    AskedRule(FipsMode, p, cfg, ns);
    AskedRule(Landscape, p, cfg, ns);
    AskedRule(TrustBundle, p, cfg, ns);
  }

  /** The features a configuration may name are exactly those a defaulter serves. */
  lemma KnownFeaturesAreServed(feature: string)
    ensures feature in KNOWN_FEATURES <==> exists d :: Feature(d) == feature
  {
    if feature in KNOWN_FEATURES {
      assert Feature(ImgRegistry) == feature || Feature(PullSecret) == feature || Feature(TrustBundle) == feature
          || Feature(FipsMode) == feature || Feature(Landscape) == feature;
    }
  }
}
