/** The five pod defaulters (internal/webhook/v1): what each does to a pod, and the code that does it in place. */
module Defaulters {
  import opened Prelude
  import opened Features
  import opened Images
  import opened Pods
  import opened HashHolders

  datatype Defaulter = ImgRegistry | PullSecret | TrustBundle | FipsMode | Landscape

  /** The annotation that asks for a defaulter. */
  function Feature(d: Defaulter): string {
    match d
    case ImgRegistry => ALTER_IMG_REGISTRY
    case PullSecret => SET_PULL_SECRET
    case TrustBundle => ADD_TRUST_BUNDLE
    case FipsMode => SET_FIPS_MODE
    case Landscape => SET_LANDSCAPE
  }

  /** What one admission works with besides the pod and the configuration: the namespace's annotations,
      the two start-up parameters, and the holder's hash at the moment it is read. */
  datatype Admission = Admission(nsAnnotations: Annotations, pullSecret: string, landscape: string, hash: string)

  const KYMA_FIPS_MODE_ENABLED := "KYMA_FIPS_MODE_ENABLED"
  const FIPS_MODE_ENABLED := "FIPS_MODE_ENABLED"
  const KYMA_LANDSCAPE := "KYMA_LANDSCAPE"

  // ===== effects on values =====

  function ImagesRewritten(cs: seq<Container>, overrides: map<string, string>): (r: seq<Container>)
    ensures |r| == |cs|
  {
    seq(|cs|, i requires 0 <= i < |cs| => cs[i].(image := AlterPodImageRegistry(cs[i].image, overrides)))
  }

  function SecretAdded(secrets: seq<string>, secret: string): seq<string> {
    if secret in secrets then secrets else secrets + [secret]
  }

  /** The first entry of that name gets the value; without one, an entry is appended. */
  function EnvSet(env: seq<EnvVar>, name: string, value: string): seq<EnvVar> {
    EnvSetAt(env, IndexOfName(EnvNames(env), name), name, value)
  }

  function EnvSetAt(env: seq<EnvVar>, at: Option<nat>, name: string, value: string): seq<EnvVar>
    requires at.Some? ==> at.value < |env|
  {
    if at.None? then env + [EnvVar(name, value, None)]
    else if env[at.value].value == value then env
    else env[at.value := EnvVar(name, value, None)]
  }

  function FipsEnv(env: seq<EnvVar>): seq<EnvVar> {
    EnvSet(EnvSet(env, KYMA_FIPS_MODE_ENABLED, "true"), FIPS_MODE_ENABLED, "true")
  }

  function FipsContainers(cs: seq<Container>): (r: seq<Container>)
    ensures |r| == |cs|
  {
    seq(|cs|, i requires 0 <= i < |cs| => cs[i].(env := FipsEnv(cs[i].env)))
  }

  function LandscapeContainers(cs: seq<Container>, landscape: string): (r: seq<Container>)
    ensures |r| == |cs|
  {
    seq(|cs|, i requires 0 <= i < |cs| => cs[i].(env := EnvSet(cs[i].env, KYMA_LANDSCAPE, landscape)))
  }

  function BundleVolume(m: TrustBundleMapping): Volume {
    Volume(m.volumeName, TrustBundleProjection(m.name, m.certWritePath))
  }

  function BundleMount(m: TrustBundleMapping): VolumeMount {
    VolumeMount(m.volumeName, true, m.volumeMountPath, "")
  }

  function VolumePut(volumes: seq<Volume>, v: Volume): seq<Volume> {
    match IndexOfName(VolumeNames(volumes), v.name)
    case None => volumes + [v]
    case Some(i) => volumes[i := v]
  }

  function MountPut(mounts: seq<VolumeMount>, m: VolumeMount): seq<VolumeMount> {
    match IndexOfName(MountNames(mounts), m.name)
    case None => mounts + [m]
    case Some(i) => mounts[i := m]
  }

  function MountedContainers(cs: seq<Container>, m: VolumeMount): (r: seq<Container>)
    ensures |r| == |cs|
  {
    seq(|cs|, i requires 0 <= i < |cs| => cs[i].(volumeMounts := MountPut(cs[i].volumeMounts, m)))
  }

  /** Only the main containers get the mount. */
  function BundleMounted(p: PodData, m: TrustBundleMapping): PodData {
    p.(volumes := VolumePut(p.volumes, BundleVolume(m)), containers := MountedContainers(p.containers, BundleMount(m)))
  }

  function BundleEffect(p: PodData, cfg: Config, hash: string): PodData {
    var mounted := if cfg.trustBundle.None? then p else BundleMounted(p, cfg.trustBundle.value);
    if hash == "" then mounted else Annotated(mounted, CTB_HASH, hash)
  }

  /** Whether a defaulter acts on the pod. A trust-bundle "false" on the pod beats every level. */
  predicate Asked(d: Defaulter, p: PodData, cfg: Config, nsAnnotations: Annotations) {
    && (d.TrustBundle? ==> !CTBExplicitOptOut(p.annotations))
    && OptedIn(Feature(d), cfg, p.namespace, nsAnnotations, p.annotations)
  }

  function Effect(d: Defaulter, p: PodData, cfg: Config, a: Admission): PodData {
    match d
    case ImgRegistry => p.(initContainers := ImagesRewritten(p.initContainers, cfg.overrides),
                           containers := ImagesRewritten(p.containers, cfg.overrides))
    case PullSecret => p.(imagePullSecrets := SecretAdded(p.imagePullSecrets, a.pullSecret))
    case TrustBundle => BundleEffect(p, cfg, a.hash)
    case FipsMode => p.(initContainers := FipsContainers(p.initContainers), containers := FipsContainers(p.containers))
    case Landscape => p.(initContainers := LandscapeContainers(p.initContainers, a.landscape),
                         containers := LandscapeContainers(p.containers, a.landscape))
  }

  function Applied(d: Defaulter, p: PodData, cfg: Config, a: Admission): PodData {
    if Asked(d, p, cfg, a.nsAnnotations) then Effect(d, p, cfg, a) else p
  }

  /**
   * What a defaulter reports. Four of them report exactly whether the pod changed. The trust-bundle one also
   * reports every main container it visits: it compares a mount with a volume, which are never equal.
   */
  predicate Reported(d: Defaulter, p: PodData, cfg: Config, a: Admission) {
    && Asked(d, p, cfg, a.nsAnnotations)
    && if d.TrustBundle? then
         || a.hash != ""
         || (cfg.trustBundle.Some?
            && (p.containers != [] || BundleMounted(p, cfg.trustBundle.value).volumes != p.volumes))
       else Effect(d, p, cfg, a) != p
  }

  // ===== the code, in place =====

  /** The opt-in loop shared by all defaulters. */
  method AsksFor(feature: string, pod: Pod, nsAnnotations: Annotations, cfg: Config) returns (asked: bool)
    ensures asked <==> OptedIn(feature, cfg, pod.namespace, nsAnnotations, pod.annotations)
  {
    var defaults := NamespaceDefaultFeatures(cfg, pod.namespace);
    var expandedNamespace := ExpandAnnotationAll(cfg, nsAnnotations);
    var expandedPod := ExpandAnnotationAll(cfg, pod.annotations);
    var levels := [Some(defaults), expandedNamespace, expandedPod];
    var active := map[feature := "true"];
    for i := 0 to |levels|
      invariant forall j | 0 <= j < i :: !Contains(levels[j], active)
    {
      if Contains(levels[i], active) {
        return true;
      }
    }
    assert !Contains(levels[0], active) && !Contains(levels[1], active) && !Contains(levels[2], active);
    return false;
  }

  method AlterImgRegistry(containers: array<Container>, overrides: map<string, string>) returns (modified: bool)
    modifies containers
    ensures containers[..] == ImagesRewritten(old(containers[..]), overrides)
    ensures modified <==> containers[..] != old(containers[..])
  {
    hide AlterPodImageRegistry;
    ghost var before := containers[..];
    modified := false;
    for i := 0 to containers.Length
      invariant containers[..i] == ImagesRewritten(before, overrides)[..i]
      invariant containers[i..] == before[i..]
      invariant modified <==> containers[..] != before
    {
      assert containers[i] == before[i];
      var altered := AlterPodImageRegistry(containers[i].image, overrides);
      if altered == containers[i].image {
        continue;
      }
      containers[i] := containers[i].(image := altered);
      assert containers[..][i] != before[i];
      modified := true;
    }
  }

  method AlterPodImages(pod: Pod, cfg: Config) returns (modified: bool)
    requires pod.Valid()
    modifies pod.initContainers, pod.containers
    ensures pod.initContainers[..] == ImagesRewritten(old(pod.initContainers[..]), cfg.overrides)
    ensures pod.containers[..] == ImagesRewritten(old(pod.containers[..]), cfg.overrides)
    ensures modified <==> pod.Data() != old(pod.Data())
  {
    modified := AlterImgRegistry(pod.initContainers, cfg.overrides);
    var main := AlterImgRegistry(pod.containers, cfg.overrides);
    modified := modified || main;
  }

  method AddImagePullSecret(pod: Pod, secret: string) returns (modified: bool)
    modifies pod`imagePullSecrets
    ensures pod.imagePullSecrets == SecretAdded(old(pod.imagePullSecrets), secret)
    ensures modified <==> pod.imagePullSecrets != old(pod.imagePullSecrets)
  {
    if secret in pod.imagePullSecrets {
      return false;
    }
    pod.imagePullSecrets := pod.imagePullSecrets + [secret];
    return true;
  }

  /**
   * Sets one environment variable of container i. The search runs over `currentEnv`, a view of the entries taken
   * earlier, and the position found there is used on the live list.
   */
  method SetEnvVar(cs: array<Container>, i: nat, currentEnv: seq<EnvVar>, name: string, value: string)
    returns (modified: bool)
    requires i < cs.Length
    requires |currentEnv| <= |cs[i].env|
    modifies cs
    ensures cs[..] == old(cs[..])[i := old(cs[i]).(
                        env := EnvSetAt(old(cs[i]).env, IndexOfName(EnvNames(currentEnv), name), name, value))]
    ensures modified <==> cs[i] != old(cs[i])
  {
    var index := IndexOfName(EnvNames(currentEnv), name);
    var envVar := EnvVar(name, value, None);
    if index.None? {
      cs[i] := cs[i].(env := cs[i].env + [envVar]);
      return true;
    }
    if cs[i].env[index.value].value == value {
      return false;
    }
    assert cs[i].env[index.value := envVar][index.value] != cs[i].env[index.value];
    cs[i] := cs[i].(env := cs[i].env[index.value := envVar]);
    return true;
  }

  /** Searching the entries as they were before an append finds what searching the live list would find. */
  lemma SnapshotSearch(snapshot: seq<EnvVar>, earlier: string, name: string, value: string)
    requires earlier != name
    ensures var live := EnvSet(snapshot, earlier, value);
            |snapshot| <= |live|
            && EnvSetAt(live, IndexOfName(EnvNames(snapshot), name), name, value) == EnvSet(live, name, value)
  {
    var live := EnvSet(snapshot, earlier, value);
    EnvSetNames(snapshot, earlier, value);
    assert name in EnvNames(live) ==> name in EnvNames(snapshot);
    SearchInPrefix(EnvNames(snapshot), EnvNames(live), name);
  }

  /** Setting a variable keeps the list of names, except that a new name goes to the end. */
  lemma EnvSetNames(env: seq<EnvVar>, name: string, value: string)
    ensures EnvNames(EnvSet(env, name, value)) ==
            if name in EnvNames(env) then EnvNames(env) else EnvNames(env) + [name]
  {
  }

  method SetFipsMode(cs: array<Container>) returns (modified: bool)
    modifies cs
    ensures cs[..] == FipsContainers(old(cs[..]))
    ensures modified <==> cs[..] != old(cs[..])
  {
    hide EnvSetAt, IndexOfName, EnvNames;
    ghost var before := cs[..];
    modified := false;
    for i := 0 to cs.Length
      invariant cs[..i] == FipsContainers(before)[..i]
      invariant cs[i..] == before[i..]
      invariant modified <==> cs[..] != before
    {
      assert cs[i] == before[i];
      var snapshot := cs[i].env;
      SnapshotSearch(snapshot, KYMA_FIPS_MODE_ENABLED, FIPS_MODE_ENABLED, "true");
      var first := SetEnvVar(cs, i, snapshot, KYMA_FIPS_MODE_ENABLED, "true");
      var second := SetEnvVar(cs, i, snapshot, FIPS_MODE_ENABLED, "true");
      FipsChanges(snapshot);
      assert cs[..][i] == FipsContainers(before)[i];
      assert cs[..][i] != before[i] <==> first || second;
      modified := modified || first || second;
    }
  }

  /** The two settings never undo each other. */
  lemma FipsChanges(env: seq<EnvVar>)
    ensures FipsEnv(env) == env ==> EnvSet(env, KYMA_FIPS_MODE_ENABLED, "true") == env
  {
    var once := EnvSet(env, KYMA_FIPS_MODE_ENABLED, "true");
    EnvSetNames(env, KYMA_FIPS_MODE_ENABLED, "true");
    EnvSetNames(once, FIPS_MODE_ENABLED, "true");
    var at := IndexOfName(EnvNames(env), KYMA_FIPS_MODE_ENABLED);
    if FipsEnv(env) == env && at.Some? {
      assert EnvNames(once)[at.value] == KYMA_FIPS_MODE_ENABLED;
      assert FipsEnv(env)[at.value] == once[at.value];
    }
  }

  method SetLandscape(cs: array<Container>, landscape: string) returns (modified: bool)
    modifies cs
    ensures cs[..] == LandscapeContainers(old(cs[..]), landscape)
    ensures modified <==> cs[..] != old(cs[..])
  {
    ghost var before := cs[..];
    modified := false;
    for i := 0 to cs.Length
      invariant cs[..i] == LandscapeContainers(before, landscape)[..i]
      invariant cs[i..] == before[i..]
      invariant modified <==> cs[..] != before
    {
      assert cs[i] == before[i];
      var set1 := SetEnvVar(cs, i, cs[i].env, KYMA_LANDSCAPE, landscape);
      assert cs[..][i] == LandscapeContainers(before, landscape)[i];
      modified := modified || set1;
    }
  }

  /** The result is true as soon as there is a container: a mount of that name is always rewritten. */
  method HandleVolumeMount(cs: array<Container>, m: TrustBundleMapping) returns (result: bool)
    modifies cs
    ensures cs[..] == MountedContainers(old(cs[..]), BundleMount(m))
    ensures result <==> cs.Length > 0
  {
    ghost var before := cs[..];
    result := false;
    for i := 0 to cs.Length
      invariant cs[..i] == MountedContainers(before, BundleMount(m))[..i]
      invariant cs[i..] == before[i..]
      invariant result <==> i > 0
    {
      assert cs[i] == before[i];
      var mounts := cs[i].volumeMounts;
      var index := IndexOfName(MountNames(mounts), m.volumeName);
      if index.None? {
        cs[i] := cs[i].(volumeMounts := mounts + [BundleMount(m)]);
      } else {
        // pod_defaulters.go skips a mount that equals the volume; values of the two types never are equal.
        cs[i] := cs[i].(volumeMounts := mounts[index.value := BundleMount(m)]);
      }
      result := true;
      assert cs[..][i] == MountedContainers(before, BundleMount(m))[i];
    }
  }

  method HandleClusterTrustBundle(pod: Pod, m: TrustBundleMapping) returns (modified: bool)
    requires pod.Valid()
    modifies pod`volumes, pod.containers
    ensures pod.Data() == BundleMounted(old(pod.Data()), m)
    ensures modified <==> pod.volumes != old(pod.volumes) || pod.containers.Length > 0
  {
    var index := IndexOfName(VolumeNames(pod.volumes), m.volumeName);
    var vol := BundleVolume(m);
    modified := true;
    if index.None? {
      pod.volumes := pod.volumes + [vol];
    } else if pod.volumes[index.value] == vol {
      modified := false;
    } else {
      assert pod.volumes[index.value := vol][index.value] != pod.volumes[index.value];
      pod.volumes := pod.volumes[index.value := vol];
    }
    var mounted := HandleVolumeMount(pod.containers, m);
    modified := modified || mounted;
  }

  method AddClusterTrustBundle(pod: Pod, nsAnnotations: Annotations, cfg: Config, holder: HashHolder)
    returns (modified: bool)
    requires pod.Valid()
    modifies pod`volumes, pod`annotations, pod.containers
    ensures var a := Admission(nsAnnotations, "", "", holder.hash);
            pod.Data() == Applied(TrustBundle, old(pod.Data()), cfg, a)
            && (modified <==> Reported(TrustBundle, old(pod.Data()), cfg, a))
  {
    if CTBExplicitOptOut(pod.annotations) {
      return false;
    }
    // pod_defaulters.go asks CTBMountEnabled or Contains at each level; see Features.MountEnabledIsContained.
    var asked := AsksFor(ADD_TRUST_BUNDLE, pod, nsAnnotations, cfg);
    if !asked {
      return false;
    }
    modified := false;
    if cfg.trustBundle.Some? {
      modified := HandleClusterTrustBundle(pod, cfg.trustBundle.value);
    }
    var hash := holder.Get();
    if hash != "" {
      pod.Annotate(CTB_HASH, hash);
      modified := true;
    }
  }

  /** One defaulter of the list, run on the request's pod. */
  method RunDefaulter(d: Defaulter, pod: Pod, nsAnnotations: Annotations, cfg: Config,
                      pullSecret: string, landscape: string, holder: HashHolder)
    returns (modified: bool)
    requires pod.Valid()
    modifies pod, pod.initContainers, pod.containers
    ensures var a := Admission(nsAnnotations, pullSecret, landscape, holder.hash);
            pod.Data() == Applied(d, old(pod.Data()), cfg, a)
            && (modified <==> Reported(d, old(pod.Data()), cfg, a))
  {
    if d.TrustBundle? {
      modified := AddClusterTrustBundle(pod, nsAnnotations, cfg, holder);
      return;
    }
    var asked := AsksFor(Feature(d), pod, nsAnnotations, cfg);
    if !asked {
      return false;
    }
    match d {
      case ImgRegistry =>
        modified := AlterPodImages(pod, cfg);
      case PullSecret =>
        modified := AddImagePullSecret(pod, pullSecret);
      case FipsMode =>
        modified := SetFipsMode(pod.initContainers);
        var main := SetFipsMode(pod.containers);
        modified := modified || main;
      case Landscape =>
        modified := SetLandscape(pod.initContainers, landscape);
        var main := SetLandscape(pod.containers, landscape);
        modified := modified || main;
    }
  }
}
