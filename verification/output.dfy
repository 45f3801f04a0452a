/**
 * What the generator publishes: one pipeline variable per agent holding that
 * agent's bucket, and two summaries naming the job kinds and scenario
 * locations that produced work, sorted and joined with a separator. Also the
 * reading of the baselining switch and the whole run, from preset name to
 * output or error.
 */
module Output {
  import opened Wrappers
  import opened Agents
  import opened Catalog
  import opened Seqs
  import opened Expansion
  import opened MatrixFacts
  import opened Collisions
  import opened Strings

  // ---------------------------------------------------------------------------
  // The baselining switch.
  // ---------------------------------------------------------------------------

  /** Upper-cases the ASCII letters a to z and leaves every other character alone. */
  function UpperChar(c: char): char {
    if 'a' <= c <= 'z' then (c as int - 'a' as int + 'A' as int) as char else c
  }

  function UpperCase(s: string): (r: string)
    ensures |r| == |s|
    ensures forall i :: 0 <= i < |s| ==> r[i] == UpperChar(s[i])
  {
    seq(|s|, i requires 0 <= i < |s| => UpperChar(s[i]))
  }

  /**
   * Baselining is on when the variable's value, or "FALSE" when it is unset
   * or empty, upper-cases to "TRUE": exactly the four-letter spellings of
   * "true" in any mix of cases.
   */
  function BaseliningFromEnv(value: Option<string>): (r: bool)
    ensures r <==> value.Some? && |value.value| == 4
                   && value.value[0] in "tT" && value.value[1] in "rR"
                   && value.value[2] in "uU" && value.value[3] in "eE"
  {
    var v := if value.None? || value.value == "" then "FALSE" else value.value;
    var u := UpperCase(v);
    assert u == "TRUE" <==> |v| == 4 && u[0] == 'T' && u[1] == 'R' && u[2] == 'U' && u[3] == 'E';
    assert UpperCase("FALSE")[0] == 'F';
    u == "TRUE"
  }

  // ---------------------------------------------------------------------------
  // Matrix variables.
  // ---------------------------------------------------------------------------

  /** Replaces every "-" with "_". */
  function ReplaceDashes(s: string): (r: string)
    ensures |r| == |s|
    ensures '-' !in r
    ensures forall i :: 0 <= i < |s| && s[i] == '-' ==> r[i] == '_'
    ensures forall i :: 0 <= i < |s| && s[i] != '-' ==> r[i] == s[i]
  {
    seq(|s|, i requires 0 <= i < |s| => if s[i] == '-' then '_' else s[i])
  }

  /** The pipeline variable carrying an agent's bucket. */
  function VariableName(a: Agent): string {
    "MATRIX_" + ReplaceDashes(AgentName(a))
  }

  /** The pipeline variables carrying the two summaries. */
  const ProcessKindsVariable: string := "TSPERF_PROCESS_KINDS"
  const ProcessLocationsVariable: string := "TSPERF_PROCESS_LOCATIONS"

  /** The seven published variables have seven different names. */
  lemma SummaryVariablesApart(a: Agent)
    ensures ProcessKindsVariable != ProcessLocationsVariable
    ensures ProcessKindsVariable != VariableName(a) && ProcessLocationsVariable != VariableName(a)
  {
    assert VariableName(a)[0] == 'M';
    assert ProcessKindsVariable[15] != ProcessLocationsVariable[15];
  }

  /** The five variable names: the agent names with dashes turned into underscores. */
  lemma VariableNameValues()
    ensures VariableName(Any) == "MATRIX_any"
    ensures VariableName(TsPerf1) == "MATRIX_ts_perf1"
    ensures VariableName(TsPerf2) == "MATRIX_ts_perf2"
    ensures VariableName(TsPerf3) == "MATRIX_ts_perf3"
    ensures VariableName(TsPerf4) == "MATRIX_ts_perf4"
  {
    assert ReplaceDashes("any") == "any";
    DashedName("1");
    DashedName("2");
    DashedName("3");
    DashedName("4");
  }

  /** Variable names are free of dashes, and distinct agents publish under distinct names. */
  lemma VariableNames(a: Agent, b: Agent)
    ensures '-' !in VariableName(a)
    ensures VariableName(a) == VariableName(b) ==> a == b
  {
    assert '-' !in "MATRIX_" + ReplaceDashes(AgentName(a));
    if a != b {
      VariableNameValues();
      var x, y := VariableName(a), VariableName(b);
      if a == Any || b == Any {
        assert |x| != |y|;
      } else {
        assert x[14] != y[14];
      }
    }
  }

  /** The name of a physical machine, "ts-perf" and a digit, loses its dash. */
  lemma DashedName(d: string)
    requires |d| == 1 && d[0] != '-'
    ensures ReplaceDashes("ts-perf" + d) == "ts_perf" + d
  {
    var r := ReplaceDashes("ts-perf" + d);
    assert r[2] == '_';
  }

  datatype Variable = Variable(name: string, jobs: Bucket)

  /**
   * The published values: the matrix variables, then the values of
   * ProcessKindsVariable and ProcessLocationsVariable.
   */
  datatype Published = Published(matrix: seq<Variable>, processKinds: string, processLocations: string)

  /** One variable per agent, in the matrix object's key order, empty buckets included. */
  function MatrixVariables(m: Matrix): (vs: seq<Variable>)
    ensures |vs| == |AllAgents|
    ensures forall i :: 0 <= i < |vs| ==>
              vs[i].name == VariableName(AllAgents[i]) && vs[i].jobs == BucketOf(m, AllAgents[i])
  {
    [
      Variable(VariableName(Any), BucketOf(m, Any)),
      Variable(VariableName(TsPerf1), BucketOf(m, TsPerf1)),
      Variable(VariableName(TsPerf2), BucketOf(m, TsPerf2)),
      Variable(VariableName(TsPerf3), BucketOf(m, TsPerf3)),
      Variable(VariableName(TsPerf4), BucketOf(m, TsPerf4))
    ]
  }

  /** Every agent's bucket is published under that agent's variable, and under no other name. */
  lemma EveryBucketPublished(m: Matrix, a: Agent)
    ensures exists i :: 0 <= i < |MatrixVariables(m)| && MatrixVariables(m)[i] == Variable(VariableName(a), BucketOf(m, a))
    ensures forall i :: 0 <= i < |MatrixVariables(m)| && MatrixVariables(m)[i].name == VariableName(a) ==>
              MatrixVariables(m)[i].jobs == BucketOf(m, a)
    ensures NoDup(MatrixVariables(m))
  {
    var vs := MatrixVariables(m);
    AllAgentsComplete(a);
    var k :| 0 <= k < |AllAgents| && AllAgents[k] == a;
    assert vs[k] == Variable(VariableName(a), BucketOf(m, a));
    forall i | 0 <= i < |vs| && vs[i].name == VariableName(a)
      ensures vs[i].jobs == BucketOf(m, a)
    {
      VariableNames(AllAgents[i], a);
    }
    forall i, j | 0 <= i < j < |vs|
      ensures vs[i] != vs[j]
    {
      VariableNames(AllAgents[i], AllAgents[j]);
    }
  }

  // ---------------------------------------------------------------------------
  // Summaries.
  // ---------------------------------------------------------------------------

  function KindNames(ks: seq<JobKind>): (r: seq<string>)
    ensures |r| == |ks| && forall i :: 0 <= i < |ks| ==> r[i] == KindName(ks[i])
  {
    seq(|ks|, i requires 0 <= i < |ks| => KindName(ks[i]))
  }

  function LocationNames(ls: seq<Location>): (r: seq<string>)
    ensures |r| == |ls| && forall i :: 0 <= i < |ls| ==> r[i] == LocationName(ls[i])
  {
    seq(|ls|, i requires 0 <= i < |ls| => LocationName(ls[i]))
  }

  /** The processed kinds, sorted and joined with spaces. */
  function KindsSummary(ks: seq<JobKind>): string {
    Join(Sort(KindNames(ks)), ' ')
  }

  /** The processed locations, sorted and joined with commas. */
  function LocationsSummary(ls: seq<Location>): string {
    Join(Sort(LocationNames(ls)), ',')
  }

  lemma KindNameFacts(k: JobKind, k2: JobKind)
    ensures ' ' !in KindName(k) && ',' !in KindName(k)
    ensures KindName(k) == KindName(k2) ==> k == k2
  {
  }

  lemma LocationNameFacts(l: Location, l2: Location)
    ensures ' ' !in LocationName(l) && ',' !in LocationName(l)
    ensures LocationName(l) == LocationName(l2) ==> l == l2
  {
  }

  lemma KindNamesNoDup(ks: seq<JobKind>)
    requires NoDup(ks)
    ensures NoDup(KindNames(ks))
    ensures forall x :: x in KindNames(ks) <==> exists k :: k in ks && KindName(k) == x
  {
    var ns := KindNames(ks);
    forall i, j | 0 <= i < j < |ns|
      ensures ns[i] != ns[j]
    {
      KindNameFacts(ks[i], ks[j]);
    }
    forall x
      ensures x in ns <==> exists k :: k in ks && KindName(k) == x
    {
      if x in ns {
        var i :| 0 <= i < |ns| && ns[i] == x;
        assert ks[i] in ks;
      }
      if k :| k in ks && KindName(k) == x {
        var i :| 0 <= i < |ks| && ks[i] == k;
        assert ns[i] == x;
      }
    }
  }

  lemma LocationNamesNoDup(ls: seq<Location>)
    requires NoDup(ls)
    ensures NoDup(LocationNames(ls))
    ensures forall x :: x in LocationNames(ls) <==> exists l :: l in ls && LocationName(l) == x
  {
    var ns := LocationNames(ls);
    forall i, j | 0 <= i < j < |ns|
      ensures ns[i] != ns[j]
    {
      LocationNameFacts(ls[i], ls[j]);
    }
    forall x
      ensures x in ns <==> exists l :: l in ls && LocationName(l) == x
    {
      if x in ns {
        var i :| 0 <= i < |ns| && ns[i] == x;
        assert ls[i] in ls;
      }
      if l :| l in ls && LocationName(l) == x {
        var i :| 0 <= i < |ls| && ls[i] == l;
        assert ns[i] == x;
      }
    }
  }

  /**
   * Splitting the kinds summary at spaces gives back each processed kind's
   * name exactly once, in increasing order.
   */
  lemma KindsSummaryReadsBack(ks: seq<JobKind>)
    requires NoDup(ks)
    ensures |ks| == 0 ==> KindsSummary(ks) == ""
    ensures |ks| > 0 ==> StrictlySorted(Split(KindsSummary(ks), ' '))
    ensures |ks| > 0 ==> |Split(KindsSummary(ks), ' ')| == |ks|
    ensures |ks| > 0 ==> forall k :: KindName(k) in Split(KindsSummary(ks), ' ') <==> k in ks
    ensures |ks| > 0 ==> forall x :: x in Split(KindsSummary(ks), ' ') ==> exists k :: k in ks && KindName(k) == x
  {
    var ns := KindNames(ks);
    KindNamesNoDup(ks);
    SortDistinct(ns);
    var sorted := Sort(ns);
    if |ks| > 0 {
      forall i | 0 <= i < |sorted|
        ensures ' ' !in sorted[i]
      {
        assert sorted[i] in ns;
        var k :| k in ks && KindName(k) == sorted[i];
        KindNameFacts(k, k);
      }
      SplitJoin(sorted, ' ');
      forall k
        ensures KindName(k) in sorted <==> k in ks
      {
        if KindName(k) in sorted {
          var k2 :| k2 in ks && KindName(k2) == KindName(k);
          KindNameFacts(k, k2);
        }
      }
    }
  }

  /**
   * Splitting the locations summary at commas gives back each processed
   * location's name exactly once, in increasing order.
   */
  lemma LocationsSummaryReadsBack(ls: seq<Location>)
    requires NoDup(ls)
    ensures |ls| == 0 ==> LocationsSummary(ls) == ""
    ensures |ls| > 0 ==> StrictlySorted(Split(LocationsSummary(ls), ','))
    ensures |ls| > 0 ==> |Split(LocationsSummary(ls), ',')| == |ls|
    ensures |ls| > 0 ==> forall l :: LocationName(l) in Split(LocationsSummary(ls), ',') <==> l in ls
    ensures |ls| > 0 ==> forall x :: x in Split(LocationsSummary(ls), ',') ==> exists l :: l in ls && LocationName(l) == x
  {
    var ns := LocationNames(ls);
    LocationNamesNoDup(ls);
    SortDistinct(ns);
    var sorted := Sort(ns);
    if |ls| > 0 {
      forall i | 0 <= i < |sorted|
        ensures ',' !in sorted[i]
      {
        assert sorted[i] in ns;
        var l :| l in ls && LocationName(l) == sorted[i];
        LocationNameFacts(l, l);
      }
      SplitJoin(sorted, ',');
      forall l
        ensures LocationName(l) in sorted <==> l in ls
      {
        if LocationName(l) in sorted {
          var l2 :| l2 in ls && LocationName(l2) == LocationName(l);
          LocationNameFacts(l, l2);
        }
      }
    }
  }

  /** The kinds summary depends only on which kinds were processed, not on the order they were met. */
  lemma KindsSummaryIgnoresOrder(ks: seq<JobKind>, ks2: seq<JobKind>)
    requires NoDup(ks) && NoDup(ks2)
    requires forall k :: k in ks <==> k in ks2
    ensures KindsSummary(ks) == KindsSummary(ks2)
  {
    KindNamesNoDup(ks);
    KindNamesNoDup(ks2);
    SortIgnoresOrder(KindNames(ks), KindNames(ks2));
  }

  /** The locations summary depends only on which locations were processed. */
  lemma LocationsSummaryIgnoresOrder(ls: seq<Location>, ls2: seq<Location>)
    requires NoDup(ls) && NoDup(ls2)
    requires forall l :: l in ls <==> l in ls2
    ensures LocationsSummary(ls) == LocationsSummary(ls2)
  {
    LocationNamesNoDup(ls);
    LocationNamesNoDup(ls2);
    SortIgnoresOrder(LocationNames(ls), LocationNames(ls2));
  }

  /** The summary of a duplicate-free list of locations is the join of any strictly increasing list of their names. */
  lemma LocationsSummaryIs(ls: seq<Location>, names: seq<string>)
    requires NoDup(ls) && StrictlySorted(names)
    requires forall x :: x in names <==> exists l :: l in ls && LocationName(l) == x
    ensures LocationsSummary(ls) == Join(names, ',')
  {
    LocationNamesNoDup(ls);
    SortDistinct(LocationNames(ls));
    StrictlySortedUnique(Sort(LocationNames(ls)), names);
  }

  // ---------------------------------------------------------------------------
  // The whole run.
  // ---------------------------------------------------------------------------

  function Emit(st: State): Published {
    Published(MatrixVariables(st.matrix), KindsSummary(st.kinds), LocationsSummary(st.locations))
  }

  /** Resolves the preset, expands it and publishes the matrix and the two summaries. */
  function Generate(presetName: string, baselining: bool): (r: Result<Published, Error>)
    ensures r.Err? <==> PresetNamed(presetName).None?
    ensures r.Err? ==> r.error == UnknownPreset(presetName)
    ensures r.Ok? ==> |r.value.matrix| == |AllAgents|
  {
    match ResolvePreset(presetName)
    case Err(e) => Err(e)
    case Ok(p) => Ok(Emit(BuildMatrix(p, baselining)))
  }

  /** For a known preset, the run publishes the expansion of that preset. */
  lemma GenerateEmits(presetName: string, baselining: bool)
    requires PresetNamed(presetName).Some?
    ensures Generate(presetName, baselining) == Ok(Emit(BuildMatrix(PresetNamed(presetName).value, baselining)))
  {
  }

  /**
   * Each requested combination is published under the variable of the agent
   * it targets.
   */
  lemma EmitPublishesEveryJob(p: Preset, baselining: bool, t: Triple)
    requires t in Triples(p)
    ensures var o := Emit(BuildMatrix(p, baselining));
      exists i :: 0 <= i < |o.matrix| && o.matrix[i].name == VariableName(Target(t, baselining))
                  && NameOf(t) in o.matrix[i].jobs
  {
    var st := BuildMatrix(p, baselining);
    var a := Target(t, baselining);
    var i :| 0 <= i < |Triples(p)| && Triples(p)[i] == t;
    BuildMatrixLookup(p, baselining, a, NameOf(t));
    assert Hits(Triples(p)[i], baselining, a, NameOf(t));
    EveryBucketPublished(st.matrix, a);
    var k :| 0 <= k < |MatrixVariables(st.matrix)| && MatrixVariables(st.matrix)[k] == Variable(VariableName(a), BucketOf(st.matrix, a));
    assert Emit(st).matrix[k].name == VariableName(a) && NameOf(t) in Emit(st).matrix[k].jobs;
  }

  /** For a known preset, each requested combination is published under the variable of the agent it targets. */
  lemma GeneratePublishesEveryJob(presetName: string, baselining: bool, t: Triple)
    requires PresetNamed(presetName).Some?
    requires t in Triples(PresetNamed(presetName).value)
    ensures var o := Generate(presetName, baselining).value;
      exists i :: 0 <= i < |o.matrix| && o.matrix[i].name == VariableName(Target(t, baselining))
                  && NameOf(t) in o.matrix[i].jobs
  {
    GenerateEmits(presetName, baselining);
    EmitPublishesEveryJob(PresetNamed(presetName).value, baselining, t);
  }

  /**
   * For a known preset, the published variables hold as many jobs as the
   * preset requests, and the reserved machine's variable is empty.
   */
  lemma GenerateJobTotal(presetName: string, baselining: bool)
    requires PresetNamed(presetName).Some?
    ensures var o := Generate(presetName, baselining).value;
      |o.matrix[0].jobs| + |o.matrix[1].jobs| + |o.matrix[2].jobs| + |o.matrix[3].jobs| + |o.matrix[4].jobs|
        == RequestedJobs(PresetNamed(presetName).value)
    ensures Generate(presetName, baselining).value.matrix[4] == Variable(VariableName(Reserved), map[])
  {
    var p := PresetNamed(presetName).value;
    GenerateEmits(presetName, baselining);
    CatalogJobCount(presetName, baselining);
    ReservedAgentIdle(p, baselining);
  }

  /**
   * The kinds summary lists, once each and in increasing order, the kinds
   * that produced at least one job; likewise the locations summary for the
   * scenario locations. A preset with a non-empty tsc entry has both
   * summaries non-empty.
   */
  lemma EmitSummaries(p: Preset, baselining: bool, k: JobKind, l: Location)
    requires Tsc in p && |p[Tsc].hosts| > 0 && |p[Tsc].scenarios| > 0
    ensures var o := Emit(BuildMatrix(p, baselining));
      && StrictlySorted(Split(o.processKinds, ' '))
      && (KindName(k) in Split(o.processKinds, ' ') <==> k in p && |p[k].hosts| > 0 && |p[k].scenarios| > 0)
      && StrictlySorted(Split(o.processLocations, ','))
      && (LocationName(l) in Split(o.processLocations, ',') <==>
            exists k2, s :: k2 in p && |p[k2].hosts| > 0 && s in p[k2].scenarios && s.location == l)
  {
    var st := BuildMatrix(p, baselining);
    ProcessedKindsExact(p, baselining, k);
    ProcessedLocationsExact(p, baselining, l);
    ProcessedKindsExact(p, baselining, Tsc);
    assert |st.kinds| > 0;
    KindsSummaryReadsBack(st.kinds);
    var s := p[Tsc].scenarios[0];
    ProcessedLocationsExact(p, baselining, s.location);
    assert s.location in st.locations;
    LocationsSummaryReadsBack(st.locations);
  }

  /** For a known preset, the summaries report exactly the kinds and locations that produced jobs. */
  lemma GenerateSummaries(presetName: string, baselining: bool, k: JobKind, l: Location)
    requires PresetNamed(presetName).Some?
    ensures var o := Generate(presetName, baselining).value;
      var p := PresetNamed(presetName).value;
      && StrictlySorted(Split(o.processKinds, ' '))
      && (KindName(k) in Split(o.processKinds, ' ') <==> k in p && |p[k].hosts| > 0 && |p[k].scenarios| > 0)
      && StrictlySorted(Split(o.processLocations, ','))
      && (LocationName(l) in Split(o.processLocations, ',') <==>
            exists k2, s :: k2 in p && |p[k2].hosts| > 0 && s in p[k2].scenarios && s.location == l)
  {
    CatalogTscEntry(presetName);
    GenerateEmits(presetName, baselining);
    EmitSummaries(PresetNamed(presetName).value, baselining, k, l);
  }

  /** Every shipped preset runs tsc on at least one host and scenario. */
  lemma CatalogTscEntry(presetName: string)
    requires PresetNamed(presetName).Some?
    ensures var p := PresetNamed(presetName).value;
      Tsc in p && |p[Tsc].hosts| > 0 && |p[Tsc].scenarios| > 0
  {
  }

  /** The kinds summary of a preset, given the kinds it expands listed in increasing name order. */
  lemma EmitKindsSummary(p: Preset, baselining: bool, kinds: seq<JobKind>)
    requires NoDup(kinds) && StrictlySorted(KindNames(kinds))
    requires forall k :: k in kinds <==> k in p && |p[k].hosts| > 0 && |p[k].scenarios| > 0
    ensures Emit(BuildMatrix(p, baselining)).processKinds == Join(KindNames(kinds), ' ')
  {
    var st := BuildMatrix(p, baselining);
    ProcessedKindsExact(p, baselining, Tsc);
    forall k
      ensures k in st.kinds <==> k in kinds
    {
      ProcessedKindsExact(p, baselining, k);
    }
    KindsSummaryIgnoresOrder(st.kinds, kinds);
    KindNamesNoDup(kinds);
    SortDistinct(KindNames(kinds));
    StrictlySortedUnique(Sort(KindNames(kinds)), KindNames(kinds));
  }

  /** A preset whose scenarios are all internal, and which expands at least one, reports "internal". */
  lemma EmitLocationsInternal(p: Preset, baselining: bool)
    requires Tsc in p && |p[Tsc].hosts| > 0 && |p[Tsc].scenarios| > 0
    requires forall k, s :: k in p && s in p[k].scenarios ==> s.location == Internal
    ensures Emit(BuildMatrix(p, baselining)).processLocations == "internal"
  {
    var ls := BuildMatrix(p, baselining).locations;
    ProcessedLocationsExact(p, baselining, Public);
    ProcessedLocationsExact(p, baselining, Internal);
    var s0 := p[Tsc].scenarios[0];
    assert s0 in p[Tsc].scenarios && s0.location == Internal;
    assert Internal in ls;
    forall x
      ensures x in ["internal"] <==> exists l :: l in ls && LocationName(l) == x
    {
      if x == "internal" {
        assert LocationName(Internal) == x;
      }
    }
    assert StrictlySorted(["internal"]);
    LocationsSummaryIs(ls, ["internal"]);
  }

  /** The kinds a shipped preset expands, in increasing name order. */
  function ExpandedKinds(presetName: string): seq<JobKind> {
    if presetName == "tsc-only" then [Tsc]
    else if presetName == "bun" then [Startup, Tsc]
    else [Startup, Tsc, TsServer]
  }

  /** Each shipped preset expands exactly the kinds listed for it. */
  lemma CatalogKindsExpanded(presetName: string)
    requires PresetNamed(presetName).Some?
    ensures NoDup(ExpandedKinds(presetName))
    ensures var p := PresetNamed(presetName).value;
      forall k :: k in ExpandedKinds(presetName) <==> k in p && |p[k].hosts| > 0 && |p[k].scenarios| > 0
  {
    if presetName == "bun" {
      BunPresetDeltas();
    }
  }

  /** The kind names listed for each preset are in increasing order. */
  lemma ExpandedKindsSorted(presetName: string)
    ensures StrictlySorted(KindNames(ExpandedKinds(presetName)))
  {
    var ks := KindNames(ExpandedKinds(presetName));
    assert LexLt("startup", "tsc") && LexLt("tsc", "tsserver") && LexLt("startup", "tsserver");
    forall i, j | 0 <= i < j < |ks|
      ensures LexLt(ks[i], ks[j])
    {
    }
  }

  lemma ExpandedKindsSummary(presetName: string)
    ensures Join(KindNames(ExpandedKinds(presetName)), ' ')
         == (if presetName == "tsc-only" then "tsc"
             else if presetName == "bun" then "startup tsc"
             else "startup tsc tsserver")
  {
    if presetName == "tsc-only" {
      assert KindNames([Tsc]) == ["tsc"];
    } else if presetName == "bun" {
      assert KindNames([Startup, Tsc]) == ["startup", "tsc"];
    } else {
      assert KindNames([Startup, Tsc, TsServer]) == ["startup", "tsc", "tsserver"];
    }
  }

  /** The summaries the shipped presets produce, in either mode. */
  lemma CatalogSummaries(presetName: string, baselining: bool)
    requires PresetNamed(presetName).Some?
    ensures var o := Generate(presetName, baselining).value;
      && o.processKinds == (if presetName == "tsc-only" then "tsc"
                            else if presetName == "bun" then "startup tsc"
                            else "startup tsc tsserver")
      && o.processLocations == "internal"
  {
    var p := PresetNamed(presetName).value;
    GenerateEmits(presetName, baselining);
    CatalogTscEntry(presetName);
    forall k, s | k in p && s in p[k].scenarios
      ensures s.location == Internal
    {
      CatalogScenarioInternal(presetName, k, s);
    }
    EmitLocationsInternal(p, baselining);
    CatalogKindsExpanded(presetName);
    ExpandedKindsSorted(presetName);
    EmitKindsSummary(p, baselining, ExpandedKinds(presetName));
    ExpandedKindsSummary(presetName);
  }

  lemma CatalogScenarioInternal(presetName: string, k: JobKind, s: Scenario)
    requires PresetNamed(presetName).Some? && k in PresetNamed(presetName).value
    requires s in PresetNamed(presetName).value[k].scenarios
    ensures s.location == Internal
  {
  }

  // ---------------------------------------------------------------------------
  // The run as the registry object actually performs the lookup.
  // ---------------------------------------------------------------------------

  /**
   * The run with the lookup as written: like the corrected run on preset
   * names, an unknown-preset error on every other name except the inherited
   * property names, which it accepts.
   */
  function GenerateAsWritten(presetName: string, baselining: bool): (r: Result<Published, Error>)
    ensures PresetNamed(presetName).Some? ==> r == Generate(presetName, baselining)
    ensures r.Err? <==> PresetNamed(presetName).None? && presetName !in InheritedObjectKeys
    ensures r.Err? ==> r.error == UnknownPreset(presetName)
  {
    match ResolvePresetAsWritten(presetName)
    case Err(e) => Err(e)
    case Ok(p) => Ok(Emit(BuildMatrix(p, baselining)))
  }

  /**
   * Every inherited property name passes the as-written run, which then
   * publishes five empty variables and two empty summaries; the corrected
   * run rejects each of them.
   */
  lemma InheritedKeysGenerateNothing(presetName: string, baselining: bool)
    requires presetName in InheritedObjectKeys
    ensures GenerateAsWritten(presetName, baselining) == Ok(Published(MatrixVariables(EmptyMatrix), "", ""))
    ensures forall i :: 0 <= i < |AllAgents| ==> MatrixVariables(EmptyMatrix)[i].jobs == map[]
    ensures Generate(presetName, baselining) == Err(UnknownPreset(presetName))
  {
    EmptyMatrixVariables();
    InheritedKeysAreNotPresets(presetName);
    assert ResolvePresetAsWritten(presetName) == Ok(map[]);
    EmptyPresetEmitsNothing(baselining);
  }

  /** The variables of the empty matrix all carry empty buckets. */
  lemma EmptyMatrixVariables()
    ensures forall i :: 0 <= i < |AllAgents| ==> MatrixVariables(EmptyMatrix)[i].jobs == map[]
  {
  }

  /** A preset with no entries expands to nothing: five empty variables and empty summaries. */
  lemma EmptyPresetEmitsNothing(baselining: bool)
    ensures Emit(BuildMatrix(map[], baselining)) == Published(MatrixVariables(EmptyMatrix), "", "")
  {
    var none: Preset := map[];
    assert KindTriples(none, AllJobKinds[..0]) == [];
    KindTriplesSnoc(none, AllJobKinds, 0);
    KindTriplesSnoc(none, AllJobKinds, 1);
    KindTriplesSnoc(none, AllJobKinds, 2);
    assert AllJobKinds[..3] == AllJobKinds;
    assert Triples(none) == [];
    assert BuildMatrix(none, baselining) == Start;
    assert KindNames([]) == [] && LocationNames([]) == [];
  }
}
