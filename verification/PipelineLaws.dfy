/** Laws of a whole pipeline, each defaulter with its configuration: order independence and idempotence. */
module PipelineLaws {
  import opened Prelude
  import opened Features
  import opened Images
  import opened Pods
  import opened Defaulters
  import opened DefaulterProperties
  import opened PodWebhook

  /** The configuration that each defaulter finds when it asks for it. */
  type ConfigOf = Defaulter -> Config

  function Overrides(cfg: ConfigOf): map<string, string> {
    cfg(ImgRegistry).overrides
  }

  function Bundle(cfg: ConfigOf): Option<TrustBundleMapping> {
    cfg(TrustBundle).trustBundle
  }

  function Read(cfg: ConfigOf, ds: seq<Defaulter>): (cfgs: seq<Config>)
    ensures |cfgs| == |ds|
  {
    seq(|ds|, i requires 0 <= i < |ds| => cfg(ds[i]))
  }

  /** The pipeline, every defaulter with its configuration. */
  function Admit(ds: seq<Defaulter>, cfg: ConfigOf, p: PodData, a: Admission): PodData {
    Defaulted(ds, Read(cfg, ds), p, a)
  }

  predicate Distinct(ds: seq<Defaulter>) {
    forall i, j | 0 <= i < j < |ds| :: ds[i] != ds[j]
  }

  /** The list the webhook selects holds no defaulter twice. */
  lemma SelectedIsDistinct(available: seq<string>, ds: seq<Defaulter>)
    requires Selection(available, ds)
    ensures Distinct(ds)
  {
  }

  // ===== the result of a run, whatever the order =====

  function LandscapeEnv(env: seq<EnvVar>, landscape: string): seq<EnvVar> {
    EnvSet(env, KYMA_LANDSCAPE, landscape)
  }

  /** The environment once the defaulters in `ran` have run; two orders are possible when both touch it. */
  predicate EnvIs(ran: set<Defaulter>, base: seq<EnvVar>, env: seq<EnvVar>, landscape: string) {
    if FipsMode in ran && Landscape in ran then
      env == LandscapeEnv(FipsEnv(base), landscape) || env == FipsEnv(LandscapeEnv(base, landscape))
    else if FipsMode in ran then env == FipsEnv(base)
    else if Landscape in ran then env == LandscapeEnv(base, landscape)
    else env == base
  }

  predicate ContainerIs(ran: set<Defaulter>, c: Container, d: Container, main: bool, cfg: ConfigOf, a: Admission) {
    && d.name == c.name
    && d.image == (if ImgRegistry in ran then AlterPodImageRegistry(c.image, Overrides(cfg)) else c.image)
    && d.volumeMounts == (if main && TrustBundle in ran && Bundle(cfg).Some?
                          then MountPut(c.volumeMounts, BundleMount(Bundle(cfg).value)) else c.volumeMounts)
    && EnvIs(ran, c.env, d.env, a.landscape)
  }

  predicate ContainersAre(ran: set<Defaulter>, cs: seq<Container>, ds: seq<Container>, main: bool, cfg: ConfigOf,
                          a: Admission) {
    |cs| == |ds| && forall i | 0 <= i < |cs| :: ContainerIs(ran, cs[i], ds[i], main, cfg, a)
  }

  /** q is p after exactly the defaulters in `ran`, annotations aside. */
  predicate SpecIs(ran: set<Defaulter>, p: PodData, q: PodData, cfg: ConfigOf, a: Admission) {
    && q.namespace == p.namespace && q.owners == p.owners
    && ContainersAre(ran, p.initContainers, q.initContainers, false, cfg, a)
    && ContainersAre(ran, p.containers, q.containers, true, cfg, a)
    && q.volumes == (if TrustBundle in ran && Bundle(cfg).Some?
                     then VolumePut(p.volumes, BundleVolume(Bundle(cfg).value)) else p.volumes)
    && q.imagePullSecrets == (if PullSecret in ran then SecretAdded(p.imagePullSecrets, a.pullSecret)
                                 else p.imagePullSecrets)
  }

  function StampedAnnotations(ran: set<Defaulter>, p: PodData, a: Admission): Annotations {
    if TrustBundle in ran && a.hash != "" then Some(Entries(p.annotations)[CTB_HASH := a.hash]) else p.annotations
  }

  lemma StampedAnnotationsKeep(ran: set<Defaulter>, p: PodData, a: Admission)
    ensures SameRequests(p.annotations, StampedAnnotations(ran, p, a))
  {
  }

  lemma ImagesStep(ran: set<Defaulter>, cs: seq<Container>, ds: seq<Container>, main: bool, cfg: ConfigOf, a: Admission)
    requires ContainersAre(ran, cs, ds, main, cfg, a) && ImgRegistry !in ran
    ensures ContainersAre(ran + {ImgRegistry}, cs, ImagesRewritten(ds, Overrides(cfg)), main, cfg, a)
  {
  }

  lemma MountsStep(ran: set<Defaulter>, cs: seq<Container>, ds: seq<Container>, cfg: ConfigOf, a: Admission)
    requires ContainersAre(ran, cs, ds, true, cfg, a) && TrustBundle !in ran && Bundle(cfg).Some?
    ensures ContainersAre(ran + {TrustBundle}, cs, MountedContainers(ds, BundleMount(Bundle(cfg).value)), true, cfg, a)
  {
  }

  lemma FipsStep(ran: set<Defaulter>, cs: seq<Container>, ds: seq<Container>, main: bool, cfg: ConfigOf, a: Admission)
    requires ContainersAre(ran, cs, ds, main, cfg, a) && FipsMode !in ran
    ensures ContainersAre(ran + {FipsMode}, cs, FipsContainers(ds), main, cfg, a)
  {
  }

  lemma LandscapeStep(ran: set<Defaulter>, cs: seq<Container>, ds: seq<Container>, main: bool, cfg: ConfigOf,
                      a: Admission)
    requires ContainersAre(ran, cs, ds, main, cfg, a) && Landscape !in ran
    ensures ContainersAre(ran + {Landscape}, cs, LandscapeContainers(ds, a.landscape), main, cfg, a)
  {
  }

  /** A defaulter that has nothing to do with these containers. */
  lemma OtherStep(d: Defaulter, ran: set<Defaulter>, cs: seq<Container>, ds: seq<Container>, main: bool, cfg: ConfigOf,
                  a: Admission)
    requires ContainersAre(ran, cs, ds, main, cfg, a)
    requires d == PullSecret || (d == TrustBundle && (!main || Bundle(cfg).None?))
    ensures ContainersAre(ran + {d}, cs, ds, main, cfg, a)
  {
  }

  lemma EffectStep(d: Defaulter, ran: set<Defaulter>, p: PodData, q: PodData, cfg: ConfigOf, a: Admission)
    requires SpecIs(ran, p, q, cfg, a) && d !in ran
    ensures SpecIs(ran + {d}, p, Effect(d, q, cfg(d), a), cfg, a)
  {
    hide ContainersAre;
    match d {
      case ImgRegistry =>
        ImagesStep(ran, p.initContainers, q.initContainers, false, cfg, a);
        ImagesStep(ran, p.containers, q.containers, true, cfg, a);
      case PullSecret =>
        OtherStep(d, ran, p.initContainers, q.initContainers, false, cfg, a);
        OtherStep(d, ran, p.containers, q.containers, true, cfg, a);
      case TrustBundle =>
        OtherStep(d, ran, p.initContainers, q.initContainers, false, cfg, a);
        if Bundle(cfg).Some? {
          MountsStep(ran, p.containers, q.containers, cfg, a);
        } else {
          OtherStep(d, ran, p.containers, q.containers, true, cfg, a);
        }
      case FipsMode =>
        FipsStep(ran, p.initContainers, q.initContainers, false, cfg, a);
        FipsStep(ran, p.containers, q.containers, true, cfg, a);
      case Landscape =>
        LandscapeStep(ran, p.initContainers, q.initContainers, false, cfg, a);
        LandscapeStep(ran, p.containers, q.containers, true, cfg, a);
    }
  }

  /** The first n defaulters that were asked for. */
  function Ran(ds: seq<Defaulter>, n: nat, p: PodData, cfg: ConfigOf, a: Admission): set<Defaulter>
    requires n <= |ds|
  {
    set i | 0 <= i < n && Asked(ds[i], p, cfg(ds[i]), a.nsAnnotations) :: ds[i]
  }

  lemma RanStep(ds: seq<Defaulter>, n: nat, p: PodData, cfg: ConfigOf, a: Admission)
    requires 0 < n <= |ds| && Distinct(ds)
    ensures var d := ds[n - 1];
            && d !in Ran(ds, n - 1, p, cfg, a)
            && Ran(ds, n, p, cfg, a) ==
               Ran(ds, n - 1, p, cfg, a) + if Asked(d, p, cfg(d), a.nsAnnotations) then {d} else {}
  {
  }

  /** A defaulter that was not run yet, on a pod some others have run on. */
  lemma AppliedStep(d: Defaulter, ran: set<Defaulter>, p: PodData, q: PodData, cfg: ConfigOf, a: Admission)
    requires SpecIs(ran, p, q, cfg, a) && d !in ran
    requires q.annotations == StampedAnnotations(ran, p, a)
    ensures var r := Applied(d, q, cfg(d), a);
            var more := ran + if Asked(d, p, cfg(d), a.nsAnnotations) then {d} else {};
            SpecIs(more, p, r, cfg, a) && r.annotations == StampedAnnotations(more, p, a)
  {
    SameAsk(d, p, q, cfg(d), a.nsAnnotations);
    AppliedAnnotations(d, q, cfg(d), a);
    if Asked(d, p, cfg(d), a.nsAnnotations) {
      EffectStep(d, ran, p, q, cfg, a);
    } else {
      assert ran + {} == ran;
    }
  }

  lemma NothingRan(ds: seq<Defaulter>, p: PodData, cfg: ConfigOf, a: Admission)
    ensures SpecIs(Ran(ds, 0, p, cfg, a), p, p, cfg, a)
            && StampedAnnotations(Ran(ds, 0, p, cfg, a), p, a) == p.annotations
  {
    assert Ran(ds, 0, p, cfg, a) == {};
  }

  /** A run is determined by the set of defaulters that were asked for. */
  lemma {:induction false} RunIs(ds: seq<Defaulter>, n: nat, p: PodData, cfg: ConfigOf, a: Admission)
    requires n <= |ds| && Distinct(ds)
    ensures var q := After(ds, Read(cfg, ds), n, p, a);
            SpecIs(Ran(ds, n, p, cfg, a), p, q, cfg, a)
            && q.annotations == StampedAnnotations(Ran(ds, n, p, cfg, a), p, a)
  {
    hide SpecIs, Applied, Ran, StampedAnnotations;
    if n == 0 {
      NothingRan(ds, p, cfg, a);
    } else {
      RunIs(ds, n - 1, p, cfg, a);
      RanStep(ds, n, p, cfg, a);
      AppliedStep(ds[n - 1], Ran(ds, n - 1, p, cfg, a), p, After(ds, Read(cfg, ds), n - 1, p, a), cfg, a);
    }
  }

  // ===== order independence =====

  /** The same entries for what was there before, and the same appended ones in some order. */
  predicate EnvAlike(base: seq<EnvVar>, e: seq<EnvVar>, f: seq<EnvVar>) {
    && |base| <= |e| == |f|
    && e[..|base|] == f[..|base|]
    && multiset(e[|base|..]) == multiset(f[|base|..])
  }

  predicate ContainersAlike(base: seq<Container>, cs: seq<Container>, ds: seq<Container>) {
    && |base| == |cs| == |ds|
    && forall i | 0 <= i < |cs| :: cs[i] == ds[i].(env := cs[i].env) && EnvAlike(base[i].env, cs[i].env, ds[i].env)
  }

  /** Equal pods, up to the order of the environment entries appended to base's containers. */
  predicate PodsAlike(base: PodData, q: PodData, r: PodData) {
    && q == r.(initContainers := q.initContainers, containers := q.containers)
    && ContainersAlike(base.initContainers, q.initContainers, r.initContainers)
    && ContainersAlike(base.containers, q.containers, r.containers)
  }

  /** What EnvSet does to the entries that were there, and what it appends. */
  function InPlace(env: seq<EnvVar>, name: string, value: string): (r: seq<EnvVar>)
    ensures |r| == |env|
  {
    if name in EnvNames(env) then EnvSet(env, name, value) else env
  }

  function Appendix(env: seq<EnvVar>, name: string, value: string): seq<EnvVar> {
    if name in EnvNames(env) then [] else [EnvVar(name, value, None)]
  }

  /** Setting a variable in `env`, some entries of other names already appended. */
  lemma EnvSetSplit(base: seq<EnvVar>, tail: seq<EnvVar>, name: string, value: string)
    requires name !in EnvNames(tail)
    ensures EnvSet(base + tail, name, value) == InPlace(base, name, value) + tail + Appendix(base, name, value)
    ensures EnvNames(InPlace(base, name, value)) == EnvNames(base)
  {
    assert EnvNames(base + tail) == EnvNames(base) + EnvNames(tail);
    if name in EnvNames(base) {
      SearchInPrefix(EnvNames(base), EnvNames(base + tail), name);
    }
  }

  lemma InPlaceCommutes(env: seq<EnvVar>, n: string, v: string, m: string, w: string)
    requires n != m
    ensures InPlace(InPlace(env, n, v), m, w) == InPlace(InPlace(env, m, w), n, v)
  {
    EnvSetNames(env, n, v);
    EnvSetNames(env, m, w);
    EnvSetMeaning(env, n, v);
    EnvSetMeaning(env, m, w);
  }

  lemma FipsThenLandscape(env: seq<EnvVar>, landscape: string)
    ensures LandscapeEnv(FipsEnv(env), landscape) ==
            InPlace(InPlace(InPlace(env, KYMA_FIPS_MODE_ENABLED, "true"), FIPS_MODE_ENABLED, "true"),
                    KYMA_LANDSCAPE, landscape)
            + (Appendix(env, KYMA_FIPS_MODE_ENABLED, "true") + Appendix(env, FIPS_MODE_ENABLED, "true")
               + Appendix(env, KYMA_LANDSCAPE, landscape))
  {
    ThreeSettings(env, KYMA_FIPS_MODE_ENABLED, "true", FIPS_MODE_ENABLED, "true", KYMA_LANDSCAPE, landscape);
  }

  lemma LandscapeThenFips(env: seq<EnvVar>, landscape: string)
    ensures FipsEnv(LandscapeEnv(env, landscape)) ==
            InPlace(InPlace(InPlace(env, KYMA_LANDSCAPE, landscape), KYMA_FIPS_MODE_ENABLED, "true"),
                    FIPS_MODE_ENABLED, "true")
            + (Appendix(env, KYMA_LANDSCAPE, landscape) + Appendix(env, KYMA_FIPS_MODE_ENABLED, "true")
               + Appendix(env, FIPS_MODE_ENABLED, "true"))
  {
    ThreeSettings(env, KYMA_LANDSCAPE, landscape, KYMA_FIPS_MODE_ENABLED, "true", FIPS_MODE_ENABLED, "true");
  }

  lemma ThreeSettings(env: seq<EnvVar>, n1: string, v1: string, n2: string, v2: string, n3: string, v3: string)
    requires n1 != n2 && n2 != n3 && n1 != n3
    ensures EnvSet(EnvSet(EnvSet(env, n1, v1), n2, v2), n3, v3) ==
            InPlace(InPlace(InPlace(env, n1, v1), n2, v2), n3, v3)
            + (Appendix(env, n1, v1) + Appendix(env, n2, v2) + Appendix(env, n3, v3))
  {
    hide EnvSet, IndexOfName, InPlace;
    var t1, t2, t3 := Appendix(env, n1, v1), Appendix(env, n2, v2), Appendix(env, n3, v3);
    var e1 := InPlace(env, n1, v1);
    var e2 := InPlace(e1, n2, v2);
    EnvSetSplit(env, [], n1, v1);
    assert env + [] == env && e1 + [] + t1 == e1 + t1;
    EnvSetSplit(e1, t1, n2, v2);
    assert e2 + t1 + t2 == e2 + (t1 + t2);
    EnvSetSplit(e2, t1 + t2, n3, v3);
    var e3 := InPlace(e2, n3, v3);
    assert e3 + (t1 + t2) + t3 == e3 + (t1 + t2 + t3);
  }

  /** The two environment defaulters may run in either order. */
  lemma EnvOrders(env: seq<EnvVar>, landscape: string)
    ensures EnvAlike(env, LandscapeEnv(FipsEnv(env), landscape), FipsEnv(LandscapeEnv(env, landscape)))
  {
    var k, f, l := KYMA_FIPS_MODE_ENABLED, FIPS_MODE_ENABLED, KYMA_LANDSCAPE;
    FipsThenLandscape(env, landscape);
    LandscapeThenFips(env, landscape);
    InPlaceCommutes(InPlace(env, k, "true"), f, "true", l, landscape);
    InPlaceCommutes(env, k, "true", l, landscape);
    var tk, tf, tl := Appendix(env, k, "true"), Appendix(env, f, "true"), Appendix(env, l, landscape);
    TailsAlike(env, InPlace(InPlace(InPlace(env, k, "true"), f, "true"), l, landscape), tk + tf + tl, tl + tk + tf);
  }

  lemma TailsAlike(base: seq<EnvVar>, head: seq<EnvVar>, s: seq<EnvVar>, t: seq<EnvVar>)
    requires |base| == |head| && multiset(s) == multiset(t)
    ensures EnvAlike(base, head + s, head + t)
  {
    assert |multiset(s)| == |s| && |multiset(t)| == |t|;
    assert (head + s)[|base|..] == s && (head + t)[|base|..] == t;
    assert (head + s)[..|base|] == head && (head + t)[..|base|] == head;
  }

  lemma ContainersAlikeWhenSame(ran: set<Defaulter>, base: seq<Container>, cs: seq<Container>, ds: seq<Container>,
                                main: bool, cfg: ConfigOf, a: Admission)
    requires ContainersAre(ran, base, cs, main, cfg, a) && ContainersAre(ran, base, ds, main, cfg, a)
    ensures ContainersAlike(base, cs, ds)
  {
    forall i | 0 <= i < |cs|
      ensures cs[i] == ds[i].(env := cs[i].env) && EnvAlike(base[i].env, cs[i].env, ds[i].env)
    {
      assert ContainerIs(ran, base[i], cs[i], main, cfg, a) && ContainerIs(ran, base[i], ds[i], main, cfg, a);
      EnvGrows(base[i].env, a.landscape);
      EnvOrders(base[i].env, a.landscape);
    }
  }

  lemma EnvGrows(env: seq<EnvVar>, landscape: string)
    ensures |env| <= |FipsEnv(env)| && |env| <= |LandscapeEnv(env, landscape)|
  {
  }

  /** A defaulter reports the same whether or not others ran before it. */
  lemma ReportUnaffected(d: Defaulter, ran: set<Defaulter>, p: PodData, q: PodData, cfg: ConfigOf, a: Admission)
    requires SpecIs(ran, p, q, cfg, a) && SameRequests(p.annotations, q.annotations) && d !in ran
    ensures Reported(d, q, cfg(d), a) <==> Reported(d, p, cfg(d), a)
  {
    SameAsk(d, p, q, cfg(d), a.nsAnnotations);
    match d {
      case ImgRegistry =>
        ImagesUnaffected(ran, p.initContainers, q.initContainers, false, cfg, a);
        ImagesUnaffected(ran, p.containers, q.containers, true, cfg, a);
      case PullSecret =>
      case TrustBundle =>
      case FipsMode =>
        FipsUnaffected(ran, p.initContainers, q.initContainers, false, cfg, a);
        FipsUnaffected(ran, p.containers, q.containers, true, cfg, a);
      case Landscape =>
        LandscapeUnaffected(ran, p.initContainers, q.initContainers, false, cfg, a);
        LandscapeUnaffected(ran, p.containers, q.containers, true, cfg, a);
    }
  }

  lemma ImagesUnaffected(ran: set<Defaulter>, cs: seq<Container>, ds: seq<Container>, main: bool, cfg: ConfigOf,
                         a: Admission)
    requires ContainersAre(ran, cs, ds, main, cfg, a) && ImgRegistry !in ran
    ensures ImagesRewritten(ds, Overrides(cfg)) == ds <==> ImagesRewritten(cs, Overrides(cfg)) == cs
  {
    assert forall i | 0 <= i < |cs| :: ds[i].image == cs[i].image;
    RewriteFixes(cs, Overrides(cfg));
    RewriteFixes(ds, Overrides(cfg));
  }

  lemma RewriteFixes(cs: seq<Container>, overrides: map<string, string>)
    ensures ImagesRewritten(cs, overrides) == cs <==>
            forall i | 0 <= i < |cs| :: AlterPodImageRegistry(cs[i].image, overrides) == cs[i].image
  {
    if ImagesRewritten(cs, overrides) == cs {
      assert forall i | 0 <= i < |cs| :: ImagesRewritten(cs, overrides)[i] == cs[i];
    }
  }

  lemma FipsUnaffected(ran: set<Defaulter>, cs: seq<Container>, ds: seq<Container>, main: bool, cfg: ConfigOf,
                       a: Admission)
    requires ContainersAre(ran, cs, ds, main, cfg, a) && FipsMode !in ran
    ensures FipsContainers(ds) == ds <==> FipsContainers(cs) == cs
  {
    FipsContainersMeaning(cs);
    FipsContainersMeaning(ds);
    forall i | 0 <= i < |cs|
      ensures FipsReady(ds[i]) <==> FipsReady(cs[i])
    {
      assert ContainerIs(ran, cs[i], ds[i], main, cfg, a);
      EnvSetKeepsOther(cs[i].env, KYMA_FIPS_MODE_ENABLED, "true", KYMA_LANDSCAPE, a.landscape);
      EnvSetKeepsOther(cs[i].env, FIPS_MODE_ENABLED, "true", KYMA_LANDSCAPE, a.landscape);
    }
  }

  lemma LandscapeUnaffected(ran: set<Defaulter>, cs: seq<Container>, ds: seq<Container>, main: bool, cfg: ConfigOf,
                            a: Admission)
    requires ContainersAre(ran, cs, ds, main, cfg, a) && Landscape !in ran
    ensures LandscapeContainers(ds, a.landscape) == ds <==> LandscapeContainers(cs, a.landscape) == cs
  {
    LandscapeFixes(cs, a.landscape);
    LandscapeFixes(ds, a.landscape);
    forall i | 0 <= i < |cs|
      ensures EnvFirstIs(ds[i].env, KYMA_LANDSCAPE, a.landscape) <==> EnvFirstIs(cs[i].env, KYMA_LANDSCAPE, a.landscape)
    {
      assert ContainerIs(ran, cs[i], ds[i], main, cfg, a);
      LandscapeSurvivesFips(cs[i].env, a.landscape);
    }
  }

  lemma LandscapeSurvivesFips(env: seq<EnvVar>, landscape: string)
    ensures EnvFirstIs(FipsEnv(env), KYMA_LANDSCAPE, landscape) <==> EnvFirstIs(env, KYMA_LANDSCAPE, landscape)
  {
    EnvSetKeepsOther(env, KYMA_LANDSCAPE, landscape, KYMA_FIPS_MODE_ENABLED, "true");
    EnvSetKeepsOther(EnvSet(env, KYMA_FIPS_MODE_ENABLED, "true"), KYMA_LANDSCAPE, landscape, FIPS_MODE_ENABLED, "true");
  }

  /** A run reports a change exactly when one of its defaulters would on the submitted pod. */
  lemma {:induction false} RunReports(ds: seq<Defaulter>, n: nat, p: PodData, cfg: ConfigOf, a: Admission)
    requires n <= |ds| && Distinct(ds)
    ensures SomeReported(ds, Read(cfg, ds), n, p, a) <==> exists i :: 0 <= i < n && Reported(ds[i], p, cfg(ds[i]), a)
  {
    hide SpecIs, Reported, Applied, Ran, Distinct, StampedAnnotations, SameRequests, Asked;
    if n > 0 {
      RunReports(ds, n - 1, p, cfg, a);
      RunIs(ds, n - 1, p, cfg, a);
      RanStep(ds, n, p, cfg, a);
      StampedAnnotationsKeep(Ran(ds, n - 1, p, cfg, a), p, a);
      ReportUnaffected(ds[n - 1], Ran(ds, n - 1, p, cfg, a), p, After(ds, Read(cfg, ds), n - 1, p, a), cfg, a);
    }
  }

  /** When the mark is written: a pod on which no defaulter would report is admitted exactly as it came, any other one
      is marked. */
  lemma MarkIff(ds: seq<Defaulter>, cfg: ConfigOf, p: PodData, a: Admission)
    requires Distinct(ds)
    ensures var q := Admit(ds, cfg, p, a);
            if exists d :: d in ds && Reported(d, p, cfg(d), a)
            then MODIFIED in Entries(q.annotations) && Entries(q.annotations)[MODIFIED] == "true"
            else q == p
  {
    hide Reported, Applied;
    RunReports(ds, |ds|, p, cfg, a);
    assert (exists d :: d in ds && Reported(d, p, cfg(d), a)) <==>
           exists i :: 0 <= i < |ds| && Reported(ds[i], p, cfg(ds[i]), a);
    if !SomeReported(ds, Read(cfg, ds), |ds|, p, a) {
      SilentRunChangesNothing(ds, Read(cfg, ds), |ds|, p, a);
    }
  }

  /** Two orders of the same defaulters admit the same pod, up to the order of newly appended env entries. */
  lemma OrderIndependent(ds: seq<Defaulter>, es: seq<Defaulter>, cfg: ConfigOf, p: PodData, a: Admission)
    requires Distinct(ds) && multiset(ds) == multiset(es)
    ensures PodsAlike(p, Admit(ds, cfg, p, a), Admit(es, cfg, p, a))
  {
    assert forall d :: d in ds <==> d in multiset(ds);
    assert forall d :: d in es <==> d in multiset(es);
    SameMembersDistinct(ds, es);
    RunIs(ds, |ds|, p, cfg, a);
    RunIs(es, |es|, p, cfg, a);
    RunReports(ds, |ds|, p, cfg, a);
    RunReports(es, |es|, p, cfg, a);
    var ran := Ran(ds, |ds|, p, cfg, a);
    forall d
      ensures d in ran <==> d in Ran(es, |es|, p, cfg, a)
    {
      assert d in ran <==> d in ds && Asked(d, p, cfg(d), a.nsAnnotations);
      assert d in Ran(es, |es|, p, cfg, a) <==> d in es && Asked(d, p, cfg(d), a.nsAnnotations);
    }
    assert ran == Ran(es, |es|, p, cfg, a);
    assert (exists i :: 0 <= i < |ds| && Reported(ds[i], p, cfg(ds[i]), a)) <==>
           exists d :: d in ds && Reported(d, p, cfg(d), a);
    assert (exists i :: 0 <= i < |es| && Reported(es[i], p, cfg(es[i]), a)) <==>
           exists d :: d in es && Reported(d, p, cfg(d), a);
    var q := After(ds, Read(cfg, ds), |ds|, p, a);
    var r := After(es, Read(cfg, es), |es|, p, a);
    ContainersAlikeWhenSame(ran, p.initContainers, q.initContainers, r.initContainers, false, cfg, a);
    ContainersAlikeWhenSame(ran, p.containers, q.containers, r.containers, true, cfg, a);
  }

  lemma SameMembersDistinct(ds: seq<Defaulter>, es: seq<Defaulter>)
    requires Distinct(ds) && multiset(ds) == multiset(es)
    ensures Distinct(es)
  {
    forall i, j | 0 <= i < j < |es|
      ensures es[i] != es[j]
    {
      if es[i] == es[j] {
        Twice(es, i, j);
        Once(ds, es[i]);
      }
    }
  }

  lemma Twice(es: seq<Defaulter>, i: nat, j: nat)
    requires i < j < |es| && es[i] == es[j]
    ensures multiset(es)[es[i]] >= 2
  {
    assert es == es[..j] + [es[j]] + es[j + 1..];
    assert es[..j] == es[..i] + [es[i]] + es[i + 1..j];
  }

  lemma {:induction false} Once(ds: seq<Defaulter>, d: Defaulter)
    requires Distinct(ds)
    ensures multiset(ds)[d] <= 1
  {
    if ds != [] {
      var rest := ds[1..];
      assert ds == [ds[0]] + rest;
      Once(rest, d);
      if d == ds[0] {
        assert forall k | 0 <= k < |rest| :: rest[k] == ds[k + 1];
        assert d !in rest;
        assert d !in multiset(rest);
      }
    }
  }

  // ===== idempotence =====

  /** A defaulter that ran has nothing left to do. */
  lemma EffectFixed(d: Defaulter, ran: set<Defaulter>, p: PodData, q: PodData, cfg: ConfigOf, a: Admission)
    requires SpecIs(ran, p, q, cfg, a) && d in ran
    requires d == ImgRegistry ==> StableOverrides(Overrides(cfg))
    requires d == TrustBundle && a.hash != "" ==>
               CTBHashPresent(q.annotations) && Lookup(q.annotations, CTB_HASH) == a.hash
    ensures Effect(d, q, cfg(d), a) == q
  {
    match d {
      case ImgRegistry =>
        ImagesFixed(ran, p.initContainers, q.initContainers, false, cfg, a);
        ImagesFixed(ran, p.containers, q.containers, true, cfg, a);
      case PullSecret =>
      case TrustBundle =>
        if a.hash != "" {
          assert Entries(q.annotations)[CTB_HASH := a.hash] == Entries(q.annotations);
        }
        if Bundle(cfg).Some? {
          MountsFixed(ran, p.containers, q.containers, cfg, a);
          VolumePutMeaning(p.volumes, BundleVolume(Bundle(cfg).value));
        }
      case FipsMode =>
        FipsFixed(ran, p.initContainers, q.initContainers, false, cfg, a);
        FipsFixed(ran, p.containers, q.containers, true, cfg, a);
      case Landscape =>
        LandscapeFixed(ran, p.initContainers, q.initContainers, false, cfg, a);
        LandscapeFixed(ran, p.containers, q.containers, true, cfg, a);
    }
  }

  lemma ImagesFixed(ran: set<Defaulter>, cs: seq<Container>, ds: seq<Container>, main: bool, cfg: ConfigOf,
                    a: Admission)
    requires ContainersAre(ran, cs, ds, main, cfg, a) && ImgRegistry in ran && StableOverrides(Overrides(cfg))
    ensures ImagesRewritten(ds, Overrides(cfg)) == ds
  {
    forall i | 0 <= i < |cs|
      ensures AlterPodImageRegistry(ds[i].image, Overrides(cfg)) == ds[i].image
    {
      assert ContainerIs(ran, cs[i], ds[i], main, cfg, a);
      RewriteIdempotent(cs[i].image, Overrides(cfg));
    }
    RewriteFixes(ds, Overrides(cfg));
  }

  lemma MountsFixed(ran: set<Defaulter>, cs: seq<Container>, ds: seq<Container>, cfg: ConfigOf, a: Admission)
    requires ContainersAre(ran, cs, ds, true, cfg, a) && TrustBundle in ran && Bundle(cfg).Some?
    ensures MountedContainers(ds, BundleMount(Bundle(cfg).value)) == ds
  {
    forall i | 0 <= i < |cs|
      ensures MountPut(ds[i].volumeMounts, BundleMount(Bundle(cfg).value)) == ds[i].volumeMounts
    {
      assert ContainerIs(ran, cs[i], ds[i], true, cfg, a);
      MountPutMeaning(cs[i].volumeMounts, BundleMount(Bundle(cfg).value));
    }
  }

  lemma FipsFixed(ran: set<Defaulter>, cs: seq<Container>, ds: seq<Container>, main: bool, cfg: ConfigOf, a: Admission)
    requires ContainersAre(ran, cs, ds, main, cfg, a) && FipsMode in ran
    ensures FipsContainers(ds) == ds
  {
    FipsContainersMeaning(ds);
    forall i | 0 <= i < |cs|
      ensures FipsReady(ds[i])
    {
      assert ContainerIs(ran, cs[i], ds[i], main, cfg, a);
      var c := cs[i];
      FipsEnvMeaning(c);
      FipsEnvMeaning(c.(env := LandscapeEnv(c.env, a.landscape)));
      EnvSetKeepsOther(FipsEnv(c.env), KYMA_FIPS_MODE_ENABLED, "true", KYMA_LANDSCAPE, a.landscape);
      EnvSetKeepsOther(FipsEnv(c.env), FIPS_MODE_ENABLED, "true", KYMA_LANDSCAPE, a.landscape);
    }
  }

  lemma LandscapeFixed(ran: set<Defaulter>, cs: seq<Container>, ds: seq<Container>, main: bool, cfg: ConfigOf,
                       a: Admission)
    requires ContainersAre(ran, cs, ds, main, cfg, a) && Landscape in ran
    ensures LandscapeContainers(ds, a.landscape) == ds
  {
    LandscapeFixes(ds, a.landscape);
    forall i | 0 <= i < |cs|
      ensures EnvFirstIs(ds[i].env, KYMA_LANDSCAPE, a.landscape)
    {
      assert ContainerIs(ran, cs[i], ds[i], main, cfg, a);
      EnvSetMeaning(cs[i].env, KYMA_LANDSCAPE, a.landscape);
      EnvSetMeaning(FipsEnv(cs[i].env), KYMA_LANDSCAPE, a.landscape);
      LandscapeSurvivesFips(LandscapeEnv(cs[i].env, a.landscape), a.landscape);
    }
  }

  /** With nothing left to do for any defaulter, a run changes nothing. */
  lemma {:induction false} RunFixed(ds: seq<Defaulter>, n: nat, q: PodData, cfg: ConfigOf, a: Admission)
    requires n <= |ds|
    requires forall d | d in ds :: Applied(d, q, cfg(d), a) == q
    ensures After(ds, Read(cfg, ds), n, q, a) == q
  {
    hide Applied;
    if n > 0 {
      RunFixed(ds, n - 1, q, cfg, a);
      assert ds[n - 1] in ds;
    }
  }

  /** An admitted pod leaves a defaulter nothing to do. */
  lemma NothingLeft(d: Defaulter, ds: seq<Defaulter>, cfg: ConfigOf, p: PodData, a: Admission)
    requires Distinct(ds) && d in ds && (d == ImgRegistry ==> StableOverrides(Overrides(cfg)))
    ensures Applied(d, Admit(ds, cfg, p, a), cfg(d), a) == Admit(ds, cfg, p, a)
  {
    hide Asked, Effect, StableOverrides;
    var q := Admit(ds, cfg, p, a);
    var ran := Ran(ds, |ds|, p, cfg, a);
    RunIs(ds, |ds|, p, cfg, a);
    assert MODIFIED != CTB_HASH;
    SameAsk(d, p, q, cfg(d), a.nsAnnotations);
    if Asked(d, p, cfg(d), a.nsAnnotations) {
      assert d in ran;
      EffectFixed(d, ran, p, q, cfg, a);
    }
  }

  lemma AdmitIdempotent(ds: seq<Defaulter>, cfg: ConfigOf, p: PodData, a: Admission)
    requires Distinct(ds) && (ImgRegistry in ds ==> StableOverrides(Overrides(cfg)))
    ensures Admit(ds, cfg, Admit(ds, cfg, p, a), a) == Admit(ds, cfg, p, a)
  {
    hide Applied, StableOverrides, Reported, Distinct;
    var q := Admit(ds, cfg, p, a);
    forall d | d in ds
      ensures Applied(d, q, cfg(d), a) == q
    {
      NothingLeft(d, ds, cfg, p, a);
    }
    RunFixed(ds, |ds|, q, cfg, a);
    if !SomeReported(ds, Read(cfg, ds), |ds|, p, a) {
      SilentRunChangesNothing(ds, Read(cfg, ds), |ds|, p, a);
    } else {
      assert Entries(q.annotations)[MODIFIED := "true"] == Entries(q.annotations);
    }
  }

  /** Defaulting twice is defaulting once, for every pod and admission, exactly when the image defaulter is not
      selected or no override leads to a registry that is overridden again. */
  lemma AdmitIdempotentIff(ds: seq<Defaulter>, cfg: ConfigOf)
    requires Distinct(ds)
    ensures (forall p, a :: Admit(ds, cfg, Admit(ds, cfg, p, a), a) == Admit(ds, cfg, p, a))
            <==> ImgRegistry !in ds || StableOverrides(Overrides(cfg))
  {
    if ImgRegistry !in ds || StableOverrides(Overrides(cfg)) {
      forall p, a
        ensures Admit(ds, cfg, Admit(ds, cfg, p, a), a) == Admit(ds, cfg, p, a)
      {
        AdmitIdempotent(ds, cfg, p, a);
      }
    } else {
      var image := UnstableImage(Overrides(cfg));
      var a := Admission(None, "", "", "");
      var p := PodData("", [], Some(map[ALTER_IMG_REGISTRY := "true"]), [], [Container("c", image, [], [])], [], []);
      AdmittedImage(ds, cfg, p, a);
      var q := Admit(ds, cfg, p, a);
      AdmittedImage(ds, cfg, q, a);
      assert Admit(ds, cfg, q, a) != q;
    }
  }

  /** The image a one-container pod that asks for the rewrite is admitted with. */
  lemma AdmittedImage(ds: seq<Defaulter>, cfg: ConfigOf, p: PodData, a: Admission)
    requires Distinct(ds) && ImgRegistry in ds && |p.containers| == 1
    requires Lookup(p.annotations, ALTER_IMG_REGISTRY) == "true"
    ensures var q := Admit(ds, cfg, p, a);
            && |q.containers| == 1
            && q.containers[0].image == AlterPodImageRegistry(p.containers[0].image, Overrides(cfg))
            && Lookup(q.annotations, ALTER_IMG_REGISTRY) == "true"
  {
    RunIs(ds, |ds|, p, cfg, a);
    var ran := Ran(ds, |ds|, p, cfg, a);
    OptInRule(ALTER_IMG_REGISTRY, cfg(ImgRegistry), p.namespace, a.nsAnnotations, p.annotations);
    assert Feature(ImgRegistry) == ALTER_IMG_REGISTRY && Asked(ImgRegistry, p, cfg(ImgRegistry), a.nsAnnotations);
    assert ImgRegistry in ran;
    var q := After(ds, Read(cfg, ds), |ds|, p, a);
    assert ContainerIs(ran, p.containers[0], q.containers[0], true, cfg, a);
    StampedAnnotationsKeep(ran, p, a);
    assert ALTER_IMG_REGISTRY != CTB_HASH && ALTER_IMG_REGISTRY != MODIFIED;
  }
}
