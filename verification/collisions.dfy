/**
 * Job names are not injective in general (see JobNames.SanitizeCollides), but
 * for the shipped catalog no two requested combinations share a name, so no
 * job is silently overwritten and every preset stores hosts times scenarios
 * jobs per kind.
 */
module Collisions {
  import opened Agents
  import opened JobNames
  import opened Catalog
  import opened Expansion
  import opened MatrixFacts
  import opened Seqs

  /** The sanitized forms of `x` and `y` differ at a position both have. */
  predicate SanitizedApart(x: string, y: string) {
    exists d :: 0 <= d < |x| && d < |y| && Sanitize(x)[d] != Sanitize(y)[d]
  }

  /** Distinct hosts of an entry differ, once sanitized, at a position both have. */
  predicate HostsSeparated(hs: seq<string>) {
    forall i, j :: 0 <= i < |hs| && 0 <= j < |hs| && hs[i] != hs[j] ==> SanitizedApart(hs[i], hs[j])
  }

  /** Distinct scenarios of an entry keep distinct names once sanitized. */
  predicate ScenariosSeparated(ss: seq<Scenario>) {
    forall i, j :: 0 <= i < |ss| && 0 <= j < |ss| && ss[i] != ss[j] ==> Sanitize(ss[i].name) != Sanitize(ss[j].name)
  }

  /** One entry lists each host and scenario once, and keeps them apart once sanitized. */
  predicate EntrySeparated(e: PresetEntry) {
    && NoDup(e.hosts) && HostsSeparated(e.hosts)
    && NoDup(e.scenarios) && ScenariosSeparated(e.scenarios)
  }

  /** The conditions under which no two combinations of a preset share a job name. */
  predicate WellSeparated(p: Preset) {
    forall k :: k in p ==> EntrySeparated(p[k])
  }

  // ---------------------------------------------------------------------------
  // Names decompose into kind, host and scenario parts.
  // ---------------------------------------------------------------------------

  function KindPrefix(k: JobKind): string {
    Sanitize(KindName(k) + "_")
  }

  lemma NameParts(t: Triple)
    ensures NameOf(t) == KindPrefix(t.kind) + Sanitize(t.host) + "_" + Sanitize(t.scenario.name)
  {
    var kp, h, n := KindName(t.kind) + "_", t.host, t.scenario.name;
    SanitizeAppend(kp + h + "_", n);
    SanitizeAppend(kp + h, "_");
    SanitizeAppend(kp, h);
    assert Sanitize("_")[0] == '_';
  }

  /** The position at which the prefixes of two different kinds differ. */
  function KindSplit(k1: JobKind, k2: JobKind): nat {
    if (k1 == Tsc && k2 == TsServer) || (k1 == TsServer && k2 == Tsc) then 3 else 0
  }

  lemma KindPrefixesDiffer(k1: JobKind, k2: JobKind)
    requires k1 != k2
    ensures KindSplit(k1, k2) < |KindPrefix(k1)| && KindSplit(k1, k2) < |KindPrefix(k2)|
    ensures KindPrefix(k1)[KindSplit(k1, k2)] != KindPrefix(k2)[KindSplit(k1, k2)]
  {
    var d := KindSplit(k1, k2);
    var a, b := KindName(k1) + "_", KindName(k2) + "_";
    assert IsWordChar(a[d]) && IsWordChar(b[d]) && a[d] != b[d];
  }

  // ---------------------------------------------------------------------------
  // No combination is requested twice.
  // ---------------------------------------------------------------------------

  lemma {:induction false} ScenarioTriplesNoDup(k: JobKind, h: string, iterations: int, ss: seq<Scenario>)
    requires NoDup(ss)
    ensures NoDup(ScenarioTriples(k, h, iterations, ss))
    decreases |ss|
  {
    if |ss| > 0 {
      var init, s := ss[..|ss| - 1], ss[|ss| - 1];
      ScenarioTriplesNoDup(k, h, iterations, init);
      var t := Triple(k, h, s, iterations);
      ScenarioTriplesMembers(k, h, iterations, init, t);
      assert forall i :: 0 <= i < |init| ==> init[i] == ss[i];
      assert s !in init;
      NoDupAppend(ScenarioTriples(k, h, iterations, init), [t]);
    }
  }

  lemma {:induction false} HostTriplesNoDup(k: JobKind, e: PresetEntry, hs: seq<string>)
    requires NoDup(hs) && NoDup(e.scenarios)
    ensures NoDup(HostTriples(k, e, hs))
    decreases |hs|
  {
    if |hs| > 0 {
      var init, h := hs[..|hs| - 1], hs[|hs| - 1];
      HostTriplesNoDup(k, e, init);
      ScenarioTriplesNoDup(k, h, e.iterations, e.scenarios);
      assert forall i :: 0 <= i < |init| ==> init[i] == hs[i];
      assert h !in init;
      forall t | t in HostTriples(k, e, init)
        ensures t !in ScenarioTriples(k, h, e.iterations, e.scenarios)
      {
        HostTriplesMembers(k, e, init, t);
        ScenarioTriplesMembers(k, h, e.iterations, e.scenarios, t);
      }
      NoDupAppend(HostTriples(k, e, init), ScenarioTriples(k, h, e.iterations, e.scenarios));
    }
  }

  lemma {:induction false} KindTriplesNoDup(p: Preset, ks: seq<JobKind>)
    requires NoDup(ks)
    requires forall k :: k in p ==> NoDup(p[k].hosts) && NoDup(p[k].scenarios)
    ensures NoDup(KindTriples(p, ks))
    decreases |ks|
  {
    if |ks| > 0 {
      var init, k := ks[..|ks| - 1], ks[|ks| - 1];
      KindTriplesNoDup(p, init);
      if k in p {
        HostTriplesNoDup(k, p[k], p[k].hosts);
        assert forall i :: 0 <= i < |init| ==> init[i] == ks[i];
        assert k !in init;
        forall t | t in KindTriples(p, init)
          ensures t !in HostTriples(k, p[k], p[k].hosts)
        {
          KindTriplesMembers(p, init, t);
          HostTriplesMembers(k, p[k], p[k].hosts, t);
        }
        NoDupAppend(KindTriples(p, init), HostTriples(k, p[k], p[k].hosts));
      } else {
        assert KindTriples(p, ks) == KindTriples(p, init) + [];
      }
    }
  }

  // ---------------------------------------------------------------------------
  // Separated presets have collision-free names.
  // ---------------------------------------------------------------------------

  lemma DifferentKindsApart(t1: Triple, t2: Triple)
    requires t1.kind != t2.kind
    ensures NameOf(t1) != NameOf(t2)
  {
    NameParts(t1);
    NameParts(t2);
    KindPrefixesDiffer(t1.kind, t2.kind);
    var d := KindSplit(t1.kind, t2.kind);
    assert NameOf(t1)[d] == KindPrefix(t1.kind)[d];
    assert NameOf(t2)[d] == KindPrefix(t2.kind)[d];
  }

  lemma DifferentHostsApart(t1: Triple, t2: Triple, d: int)
    requires t1.kind == t2.kind
    requires 0 <= d < |t1.host| && d < |t2.host| && Sanitize(t1.host)[d] != Sanitize(t2.host)[d]
    ensures NameOf(t1) != NameOf(t2)
  {
    NameParts(t1);
    NameParts(t2);
    var at := |KindPrefix(t1.kind)| + d;
    assert NameOf(t1)[at] == Sanitize(t1.host)[d];
    assert NameOf(t2)[at] == Sanitize(t2.host)[d];
  }

  lemma SameHostSameName(t1: Triple, t2: Triple)
    requires t1.kind == t2.kind && t1.host == t2.host
    requires NameOf(t1) == NameOf(t2)
    ensures Sanitize(t1.scenario.name) == Sanitize(t2.scenario.name)
  {
    NameParts(t1);
    NameParts(t2);
    var pre := KindPrefix(t1.kind) + Sanitize(t1.host) + "_";
    assert Sanitize(t1.scenario.name) == NameOf(t1)[|pre|..];
    assert Sanitize(t2.scenario.name) == NameOf(t2)[|pre|..];
  }

  /** In a well-separated preset, the job name determines the combination. */
  lemma NamesDetermineCombination(p: Preset, t1: Triple, t2: Triple)
    requires WellSeparated(p)
    requires t1 in Triples(p) && t2 in Triples(p)
    requires NameOf(t1) == NameOf(t2)
    ensures t1 == t2
  {
    TriplesMembers(p, t1);
    TriplesMembers(p, t2);
    if t1.kind != t2.kind {
      DifferentKindsApart(t1, t2);
      assert false;
    }
    var e := p[t1.kind];
    if t1.host != t2.host {
      var i :| 0 <= i < |e.hosts| && e.hosts[i] == t1.host;
      var j :| 0 <= j < |e.hosts| && e.hosts[j] == t2.host;
      assert SanitizedApart(e.hosts[i], e.hosts[j]);
      var d :| 0 <= d < |t1.host| && d < |t2.host| && Sanitize(t1.host)[d] != Sanitize(t2.host)[d];
      DifferentHostsApart(t1, t2, d);
      assert false;
    }
    SameHostSameName(t1, t2);
    var i :| 0 <= i < |e.scenarios| && e.scenarios[i] == t1.scenario;
    var j :| 0 <= j < |e.scenarios| && e.scenarios[j] == t2.scenario;
  }

  /** A well-separated preset requests no two combinations with the same job name. */
  lemma SeparatedMeansDistinct(p: Preset)
    requires WellSeparated(p)
    ensures DistinctNames(Triples(p))
  {
    var ts := Triples(p);
    assert NoDup(AllJobKinds);
    KindTriplesNoDup(p, AllJobKinds);
    forall i, j | 0 <= i < j < |ts|
      ensures NameOf(ts[i]) != NameOf(ts[j])
    {
      if NameOf(ts[i]) == NameOf(ts[j]) {
        NamesDetermineCombination(p, ts[i], ts[j]);
      }
    }
  }

  // ---------------------------------------------------------------------------
  // The shipped catalog is separated.
  // ---------------------------------------------------------------------------

  lemma ApartAt(x: string, y: string, d: int)
    requires 0 <= d < |x| && d < |y|
    requires IsWordChar(x[d]) && IsWordChar(y[d]) && x[d] != y[d]
    ensures SanitizedApart(x, y)
  {
    SanitizeDiffersAt(x, y, d);
  }

  /** Names that differ in length, or in a leading identifier character, stay apart. */
  lemma LengthOrHeadApart(x: string, y: string)
    requires |x| > 0 && |y| > 0 && IsWordChar(x[0]) && IsWordChar(y[0])
    requires |x| != |y| || x[0] != y[0]
    ensures Sanitize(x) != Sanitize(y)
  {
    if |x| == |y| {
      assert Sanitize(x)[0] != Sanitize(y)[0];
    }
  }

  lemma ScenarioListSeparated(ss: seq<Scenario>)
    requires forall i :: 0 <= i < |ss| ==> |ss[i].name| > 0 && IsWordChar(ss[i].name[0])
    requires forall i, j :: 0 <= i < j < |ss| ==>
               |ss[i].name| != |ss[j].name| || ss[i].name[0] != ss[j].name[0]
    ensures NoDup(ss) && ScenariosSeparated(ss)
  {
    forall i, j | 0 <= i < |ss| && 0 <= j < |ss| && i != j
      ensures Sanitize(ss[i].name) != Sanitize(ss[j].name)
    {
      LengthOrHeadApart(ss[i].name, ss[j].name);
    }
  }

  lemma TscScenariosSeparated()
    ensures NoDup(TscScenarios) && ScenariosSeparated(TscScenarios)
  {
    ScenarioListSeparated(TscScenarios);
  }

  lemma TsServerScenariosSeparated()
    ensures NoDup(TsServerScenarios) && ScenariosSeparated(TsServerScenarios)
  {
    ScenarioListSeparated(TsServerScenarios);
  }

  lemma StartupScenariosSeparated()
    ensures NoDup(StartupScenarios) && ScenariosSeparated(StartupScenarios)
  {
    ScenarioListSeparated(StartupScenarios);
  }

  /** Dropping a scenario by name keeps a duplicate-free list duplicate-free. */
  lemma {:induction false} WithoutScenarioNoDup(ss: seq<Scenario>, name: string)
    requires NoDup(ss)
    ensures NoDup(WithoutScenario(ss, name))
  {
    if |ss| > 0 {
      var rest := ss[1..];
      assert NoDup(rest) by {
        forall i, j | 0 <= i < j < |rest|
          ensures rest[i] != rest[j]
        {
          assert rest[i] == ss[i + 1] && rest[j] == ss[j + 1];
        }
      }
      WithoutScenarioNoDup(rest, name);
      if ss[0].name != name {
        var tail := WithoutScenario(rest, name);
        assert ss[0] !in rest;
        assert ss[0] !in tail;
      }
    }
  }

  /** The separation of scenario names carries over to any list drawn from the same scenarios. */
  lemma DrawnScenariosSeparated(ss: seq<Scenario>, rs: seq<Scenario>)
    requires ScenariosSeparated(ss)
    requires forall s :: s in rs ==> s in ss
    ensures ScenariosSeparated(rs)
  {
    forall i, j | 0 <= i < |rs| && 0 <= j < |rs| && rs[i] != rs[j]
      ensures Sanitize(rs[i].name) != Sanitize(rs[j].name)
    {
      assert rs[i] in ss && rs[j] in ss;
      var a :| 0 <= a < |ss| && ss[a] == rs[i];
      var c :| 0 <= c < |ss| && ss[c] == rs[j];
    }
  }

  lemma BunStartupScenariosSeparated()
    ensures NoDup(BunPreset[Startup].scenarios) && ScenariosSeparated(BunPreset[Startup].scenarios)
  {
    StartupScenariosSeparated();
    WithoutScenarioNoDup(StartupScenarios, "tsserver-startup");
    DrawnScenariosSeparated(StartupScenarios, WithoutScenario(StartupScenarios, "tsserver-startup"));
  }

  lemma SingleHostSeparated(h: string)
    ensures NoDup([h]) && HostsSeparated([h])
  {
  }

  /** Hosts that all differ at one identifier-character position stay apart. */
  lemma HostListSeparated(hs: seq<string>, d: nat)
    requires forall i :: 0 <= i < |hs| ==> d < |hs[i]| && IsWordChar(hs[i][d])
    requires forall i, j :: 0 <= i < j < |hs| ==> hs[i][d] != hs[j][d]
    ensures NoDup(hs) && HostsSeparated(hs)
  {
    forall i, j | 0 <= i < |hs| && 0 <= j < |hs| && hs[i] != hs[j]
      ensures SanitizedApart(hs[i], hs[j])
    {
      ApartAt(hs[i], hs[j], d);
    }
  }

  lemma FullHostsSeparated()
    ensures NoDup([Node20, Node18, Node16]) && HostsSeparated([Node20, Node18, Node16])
  {
    HostListSeparated([Node20, Node18, Node16], 6);
  }

  /** Every entry of a one-host preset is separated, whatever the host and iterations. */
  lemma OneHostEntriesSeparated(h: string, n: int)
    ensures EntrySeparated(PresetEntry([h], n, TscScenarios))
    ensures EntrySeparated(PresetEntry([h], n, TsServerScenarios))
    ensures EntrySeparated(PresetEntry([h], n, StartupScenarios))
  {
    SingleHostSeparated(h);
    TscScenariosSeparated();
    TsServerScenariosSeparated();
    StartupScenariosSeparated();
  }

  lemma FullSeparated()
    ensures WellSeparated(Full)
  {
    FullHostsSeparated();
    OneHostEntriesSeparated(Node16, DefaultIterations);
    TscScenariosSeparated();
    assert EntrySeparated(Full[Tsc]);
  }

  lemma RegularSeparated()
    ensures WellSeparated(Regular)
  {
    OneHostEntriesSeparated(Node18, DefaultIterations);
  }

  lemma TscOnlySeparated()
    ensures WellSeparated(TscOnly)
  {
    OneHostEntriesSeparated(Node18, DefaultIterations);
  }

  lemma BunSeparated()
    ensures WellSeparated(BunPreset)
  {
    OneHostEntriesSeparated(Bun, DefaultIterations * 2);
    BunStartupScenariosSeparated();
    SingleHostSeparated(Bun);
    assert EntrySeparated(BunPreset[Startup]);
  }

  lemma VsCodeSeparated()
    ensures WellSeparated(VsCodePreset)
  {
    OneHostEntriesSeparated(VsCode, DefaultIterations);
  }

  /** Every preset of the catalog satisfies the separation conditions. */
  lemma CatalogWellSeparated(name: string)
    requires PresetNamed(name).Some?
    ensures WellSeparated(PresetNamed(name).value)
  {
    if name == "full" {
      FullSeparated();
    } else if name == "regular" {
      RegularSeparated();
    } else if name == "tsc-only" {
      TscOnlySeparated();
    } else if name == "bun" {
      BunSeparated();
    } else {
      VsCodeSeparated();
    }
  }

  /**
   * For every shipped preset, in either mode, no two combinations share a job
   * name, so no job overwrites another: the matrix holds hosts times scenarios
   * jobs for every kind listed.
   */
  lemma CatalogJobCount(name: string, b: bool)
    requires PresetNamed(name).Some?
    ensures DistinctNames(Triples(PresetNamed(name).value))
    ensures JobCount(BuildMatrix(PresetNamed(name).value, b).matrix) == RequestedJobs(PresetNamed(name).value)
  {
    var p := PresetNamed(name).value;
    CatalogWellSeparated(name);
    SeparatedMeansDistinct(p);
    JobCountWhenNoCollisions(p, b);
  }

  /** How many jobs each shipped preset requests. */
  lemma CatalogRequestedJobs()
    ensures RequestedJobs(Full) == 25
    ensures RequestedJobs(Regular) == 13
    ensures RequestedJobs(TscOnly) == 6
    ensures RequestedJobs(BunPreset) == 9
    ensures RequestedJobs(VsCodePreset) == 13
  {
    BunPresetDeltas();
  }
}
