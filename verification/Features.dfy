/** Feature annotations, their expansion and validation (pkg/api/v1), and annotation containment. */
module Features {
  import opened Prelude

  const ALTER_IMG_REGISTRY := "rt-cfg.kyma-project.io/alter-img-registry"
  const SET_PULL_SECRET := "rt-cfg.kyma-project.io/add-img-pull-secret"
  const ADD_TRUST_BUNDLE := "rt-cfg.kyma-project.io/add-cluster-trust-bundle"
  const SET_FIPS_MODE := "rt-cfg.kyma-project.io/set-fips-mode"
  const SET_LANDSCAPE := "rt-cfg.kyma-project.io/set-landscape"
  const ALL := "rt-cfg.kyma-project.io/all"
  const MODIFIED := "rt-bootstrapper.kyma-project.io/modified"
  const CTB_HASH := "rt-bootstrapper.kyma-project.io/ctb-hash"

  const KNOWN_FEATURES := [ALTER_IMG_REGISTRY, SET_PULL_SECRET, ADD_TRUST_BUNDLE, SET_FIPS_MODE, SET_LANDSCAPE]

  /** A Go annotation map: a nil map (None) reads like an empty one but must not be written to. */
  type Annotations = Option<map<string, string>>

  function Entries(a: Annotations): map<string, string> {
    if a.Some? then a.value else map[]
  }

  /** The value read for a missing key is the empty string. */
  function Lookup(a: Annotations, key: string): string {
    if key in Entries(a) then Entries(a)[key] else ""
  }

  datatype TrustBundleMapping = TrustBundleMapping(
    name: string, certWritePath: string, volumeMountPath: string, volumeName: string)

  datatype Config = Config(
    overrides: map<string, string>,
    trustBundle: Option<TrustBundleMapping>,
    namespaceFeatures: Option<map<string, seq<string>>>,
    availableFeatures: seq<string>)

  /** The same value for every key of a set. */
  function Switched(keys: set<string>): map<string, string> {
    map k | k in keys :: "true"
  }

  // ----- namespace default features -----

  /** The features a namespace's list stands for, the `all` alias replaced by the catalogue. */
  function DefaultFeatureKeys(cfg: Config, nsName: string): set<string> {
    if cfg.namespaceFeatures.None? || nsName !in cfg.namespaceFeatures.value then {}
    else
      var list := cfg.namespaceFeatures.value[nsName];
      (set f | f in list && f != ALL) + (if ALL in list then set f | f in cfg.availableFeatures else {})
  }

  method NamespaceDefaultFeatures(cfg: Config, nsName: string) returns (result: map<string, string>)
    ensures result == Switched(DefaultFeatureKeys(cfg, nsName))
  {
    result := map[];
    if cfg.namespaceFeatures.None? || nsName !in cfg.namespaceFeatures.value {
      return;
    }
    var list := cfg.namespaceFeatures.value[nsName];
    ghost var keys: set<string> := {};
    for i := 0 to |list|
      invariant result == Switched(keys)
      invariant forall f :: f in keys <==>
                (f in list[..i] && f != ALL) || (ALL in list[..i] && f in cfg.availableFeatures)
    {
      assert list[..i + 1] == list[..i] + [list[i]];
      if list[i] == ALL {
        ghost var before := keys;
        for j := 0 to |cfg.availableFeatures|
          invariant result == Switched(keys)
          invariant forall f :: f in keys <==> f in before || f in cfg.availableFeatures[..j]
        {
          SwitchOne(keys, cfg.availableFeatures[j]);
          result := result[cfg.availableFeatures[j] := "true"];
          keys := keys + {cfg.availableFeatures[j]};
        }
      } else {
        SwitchOne(keys, list[i]);
        result := result[list[i] := "true"];
        keys := keys + {list[i]};
      }
    }
    assert list[..|list|] == list;
    assert keys == DefaultFeatureKeys(cfg, nsName);
  }

  lemma SwitchOne(keys: set<string>, key: string)
    ensures Switched(keys)[key := "true"] == Switched(keys + {key})
  {
  }

  // ----- expansion of the `all` annotation -----

  /** Every catalogue feature the annotations say nothing about is switched on; `all` itself goes. */
  function Expanded(cfg: Config, annotations: Annotations): Annotations {
    if Lookup(annotations, ALL) != "true" then annotations
    else Some(Switched(set f | f in cfg.availableFeatures) + (annotations.value - {ALL}))
  }

  method ExpandAnnotationAll(cfg: Config, annotations: Annotations) returns (expanded: Annotations)
    ensures expanded == Expanded(cfg, annotations)
  {
    if annotations.None? || Lookup(annotations, ALL) != "true" {
      return annotations;
    }
    var out := CopyWithoutAll(annotations.value);
    ghost var kept := out;
    for i := 0 to |cfg.availableFeatures|
      invariant forall k :: k in out <==> k in kept || k in cfg.availableFeatures[..i]
      invariant forall k | k in out :: out[k] == if k in kept then kept[k] else "true"
    {
      var f := cfg.availableFeatures[i];
      if f !in out {
        out := out[f := "true"];
      }
    }
    assert out == Switched(set f | f in cfg.availableFeatures) + kept;
    return Some(out);
  }

  method CopyWithoutAll(given: map<string, string>) returns (out: map<string, string>)
    ensures out == given - {ALL}
  {
    out := map[];
    var rest := given.Keys;
    while rest != {}
      invariant rest <= given.Keys
      invariant forall k :: k in out <==> k in given && k !in rest && k != ALL
      invariant forall k | k in out :: out[k] == given[k]
    {
      var k :| k in rest;
      rest := rest - {k};
      if k != ALL {
        out := out[k := given[k]];
      }
    }
  }

  /** Expanding twice is expanding once, no explicit value is lost on the way, and what is new are the catalogued
      features nothing was said about. */
  lemma ExpansionStable(cfg: Config, annotations: Annotations)
    ensures Lookup(annotations, ALL) != "true" ==> Expanded(cfg, annotations) == annotations
    ensures Lookup(annotations, ALL) == "true" ==>
              forall k :: k in Entries(Expanded(cfg, annotations)) <==>
                          (k in Entries(annotations) && k != ALL) || k in cfg.availableFeatures
    ensures Lookup(annotations, ALL) == "true" ==>
              forall k | k in Entries(Expanded(cfg, annotations)) && (k !in Entries(annotations) || k == ALL) ::
                Lookup(Expanded(cfg, annotations), k) == "true"
    ensures Expanded(cfg, Expanded(cfg, annotations)) == Expanded(cfg, annotations)
    ensures forall k | k in Entries(annotations) && k != ALL ::
              k in Entries(Expanded(cfg, annotations))
              && Entries(Expanded(cfg, annotations))[k] == Entries(annotations)[k]
  {
    var once := Expanded(cfg, annotations);
    if Lookup(annotations, ALL) == "true" && Lookup(once, ALL) == "true" {
      assert Expanded(cfg, once).value == once.value;
    }
  }

  // ----- opting in -----

  /** l holds every entry of r (k8s.Contains). */
  predicate Contains(l: Annotations, r: map<string, string>) {
    forall k | k in r :: k in Entries(l) && Entries(l)[k] == r[k]
  }

  /** Holding every entry is being unchanged by writing them. */
  lemma ContainsIff(l: Annotations, r: map<string, string>)
    ensures Contains(l, r) <==> Entries(l) + r == Entries(l)
  {
    if Entries(l) + r == Entries(l) {
      assert forall k | k in r :: (Entries(l) + r)[k] == r[k];
    }
  }

  /** The three levels a defaulter asks, in order; one of them is enough. */
  predicate OptedIn(feature: string, cfg: Config, nsName: string, nsAnn: Annotations, podAnn: Annotations) {
    var active := map[feature := "true"];
    || Contains(Some(Switched(DefaultFeatureKeys(cfg, nsName))), active)
    || Contains(Expanded(cfg, nsAnn), active)
    || Contains(Expanded(cfg, podAnn), active)
  }

  /** The closed rule at one annotation level: said explicitly, or not mentioned and covered by `all`. */
  predicate LevelAsks(feature: string, cfg: Config, ann: Annotations) {
    || Lookup(ann, feature) == "true"
    || (feature !in Entries(ann) && Lookup(ann, ALL) == "true" && feature in cfg.availableFeatures)
  }

  /** The closed rule for a namespace's configured list. */
  predicate ListAsks(feature: string, cfg: Config, nsName: string) {
    && cfg.namespaceFeatures.Some?
    && nsName in cfg.namespaceFeatures.value
    && var list := cfg.namespaceFeatures.value[nsName];
       feature in list || (ALL in list && feature in cfg.availableFeatures)
  }

  lemma LevelRule(feature: string, cfg: Config, ann: Annotations)
    requires feature != ALL
    ensures Contains(Expanded(cfg, ann), map[feature := "true"]) <==> LevelAsks(feature, cfg, ann)
  {
    var active := map[feature := "true"];
    assert feature in active;
    assert Contains(Expanded(cfg, ann), active) <==>
           feature in Entries(Expanded(cfg, ann)) && Entries(Expanded(cfg, ann))[feature] == "true";
  }

  /** A feature is opted in exactly when one of the three closed rules asks for it. */
  lemma OptInRule(feature: string, cfg: Config, nsName: string, nsAnn: Annotations, podAnn: Annotations)
    requires feature != ALL
    ensures OptedIn(feature, cfg, nsName, nsAnn, podAnn) <==>
            ListAsks(feature, cfg, nsName) || LevelAsks(feature, cfg, nsAnn) || LevelAsks(feature, cfg, podAnn)
  {
    LevelRule(feature, cfg, nsAnn);
    LevelRule(feature, cfg, podAnn);
    var active := map[feature := "true"];
    var defaults := Some(Switched(DefaultFeatureKeys(cfg, nsName)));
    assert feature in active;
    assert Contains(defaults, active) <==> feature in DefaultFeatureKeys(cfg, nsName);
  }

  // ----- the trust-bundle annotation values -----

  predicate CTBMountEnabled(ann: Annotations) {
    ADD_TRUST_BUNDLE in Entries(ann) && Entries(ann)[ADD_TRUST_BUNDLE] == "true"
  }

  predicate CTBExplicitOptOut(ann: Annotations) {
    ADD_TRUST_BUNDLE in Entries(ann) && Entries(ann)[ADD_TRUST_BUNDLE] == "false"
  }

  predicate CTBHashPresent(ann: Annotations) {
    CTB_HASH in Entries(ann)
  }

  predicate CTBRestartEnabled(ann: Annotations) {
    CTBHashPresent(ann) || CTBMountEnabled(ann)
  }

  /** The two tests the trust-bundle defaulter makes at each level are one. */
  lemma MountEnabledIsContained(ann: Annotations)
    ensures CTBMountEnabled(ann) <==> Contains(ann, map[ADD_TRUST_BUNDLE := "true"])
  {
    assert ADD_TRUST_BUNDLE in map[ADD_TRUST_BUNDLE := "true"];
  }

  // ----- configuration validation -----

  /** Every entry of a namespace's list is the alias or a known feature the catalogue admits. */
  predicate ListWellFormed(list: seq<string>, available: seq<string>) {
    forall f | f in list :: f == ALL || (f in KNOWN_FEATURES && (available != [] ==> f in available))
  }

  predicate WellFormed(cfg: Config) {
    && (forall f | f in cfg.availableFeatures :: f in KNOWN_FEATURES)
    && (cfg.namespaceFeatures.Some? ==>
          forall ns | ns in cfg.namespaceFeatures.value ::
            ListWellFormed(cfg.namespaceFeatures.value[ns], cfg.availableFeatures))
  }

  method SanitizeAvailableFeatures(available: seq<string>) returns (ok: bool)
    ensures ok <==> forall f | f in available :: f in KNOWN_FEATURES
  {
    for i := 0 to |available|
      invariant forall f | f in available[..i] :: f in KNOWN_FEATURES
    {
      if available[i] !in KNOWN_FEATURES {
        return false;
      }
    }
    return true;
  }

  method ValidateNsFeatures(declared: seq<string>, available: seq<string>) returns (ok: bool)
    ensures ok <==> ListWellFormed(declared, available)
  {
    for i := 0 to |declared|
      invariant ListWellFormed(declared[..i], available)
    {
      if declared[i] == ALL {
        continue;
      }
      if declared[i] !in KNOWN_FEATURES {
        return false;
      }
      if |available| > 0 {
        if declared[i] !in available {
          return false;
        }
      }
    }
    assert declared[..|declared|] == declared;
    return true;
  }

  /** The lists are visited in whatever order the map yields; the verdict does not depend on it. */
  method ValidateFeatureAliases(cfg: Config) returns (ok: bool)
    ensures ok <==> WellFormed(cfg)
  {
    ok := SanitizeAvailableFeatures(cfg.availableFeatures);
    if !ok || cfg.namespaceFeatures.None? {
      return;
    }
    var lists := cfg.namespaceFeatures.value;
    var rest := lists.Keys;
    while rest != {}
      invariant rest <= lists.Keys
      invariant forall ns | ns in lists && ns !in rest :: ListWellFormed(lists[ns], cfg.availableFeatures)
    {
      var ns :| ns in rest;
      rest := rest - {ns};
      ok := ValidateNsFeatures(lists[ns], cfg.availableFeatures);
      if !ok {
        return;
      }
    }
    return true;
  }

  /** What validation is for: a configuration is accepted exactly when its catalogue is known, and every namespace's
      list, the alias resolved, switches on known features only, of the catalogue when there is one. */
  lemma AcceptedIff(cfg: Config)
    ensures WellFormed(cfg) <==>
            && (forall f | f in cfg.availableFeatures :: f in KNOWN_FEATURES)
            && forall ns | cfg.namespaceFeatures.Some? && ns in cfg.namespaceFeatures.value ::
                 OnlySound(cfg, DefaultFeatureKeys(cfg, ns))
  {
    if cfg.namespaceFeatures.Some? && forall f | f in cfg.availableFeatures :: f in KNOWN_FEATURES {
      forall ns | ns in cfg.namespaceFeatures.value
        ensures ListWellFormed(cfg.namespaceFeatures.value[ns], cfg.availableFeatures) <==>
                OnlySound(cfg, DefaultFeatureKeys(cfg, ns))
      {
        ListAcceptedIff(cfg, ns);
      }
    }
  }

  predicate OnlySound(cfg: Config, keys: set<string>) {
    forall f | f in keys :: f in KNOWN_FEATURES && (cfg.availableFeatures != [] ==> f in cfg.availableFeatures)
  }

  lemma ListAcceptedIff(cfg: Config, ns: string)
    requires cfg.namespaceFeatures.Some? && ns in cfg.namespaceFeatures.value
    requires forall f | f in cfg.availableFeatures :: f in KNOWN_FEATURES
    ensures ListWellFormed(cfg.namespaceFeatures.value[ns], cfg.availableFeatures) <==>
            OnlySound(cfg, DefaultFeatureKeys(cfg, ns))
  {
    var list := cfg.namespaceFeatures.value[ns];
    if OnlySound(cfg, DefaultFeatureKeys(cfg, ns)) {
      forall f | f in list && f != ALL
        ensures f in KNOWN_FEATURES && (cfg.availableFeatures != [] ==> f in cfg.availableFeatures)
      {
        assert f in DefaultFeatureKeys(cfg, ns);
      }
    }
  }

  /** An accepted configuration only ever switches on known, catalogued features, never the alias, and expanding
      annotations with it leaves no alias to expand. */
  lemma AcceptedConfigIsSound(cfg: Config, nsName: string, annotations: Annotations)
    requires WellFormed(cfg)
    ensures forall f | f in DefaultFeatureKeys(cfg, nsName) ::
              f in KNOWN_FEATURES && f != ALL && (cfg.availableFeatures != [] ==> f in cfg.availableFeatures)
    ensures Lookup(Expanded(cfg, annotations), ALL) != "true"
  {
    assert ALL !in KNOWN_FEATURES;
    if cfg.namespaceFeatures.Some? && nsName in cfg.namespaceFeatures.value {
      assert ListWellFormed(cfg.namespaceFeatures.value[nsName], cfg.availableFeatures);
    }
  }
}
