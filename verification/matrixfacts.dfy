/**
 * What the generator guarantees about the matrix it builds from a preset:
 * which combinations are expanded, where each job lands, what it holds, and
 * what the kind and location summaries contain.
 */
module MatrixFacts {
  import opened Agents
  import opened JobNames
  import opened Catalog
  import opened Expansion
  import opened Seqs

  // ---------------------------------------------------------------------------
  // Which combinations a preset requests.
  // ---------------------------------------------------------------------------

  lemma {:induction false} ScenarioTriplesMembers(k: JobKind, h: string, iterations: int, ss: seq<Scenario>, t: Triple)
    ensures t in ScenarioTriples(k, h, iterations, ss)
        <==> t.kind == k && t.host == h && t.scenario in ss && t.iterations == iterations
    decreases |ss|
  {
    if |ss| > 0 {
      var init := ss[..|ss| - 1];
      ScenarioTriplesMembers(k, h, iterations, init, t);
      assert ss == init + [ss[|ss| - 1]];
    }
  }

  lemma {:induction false} HostTriplesMembers(k: JobKind, e: PresetEntry, hs: seq<string>, t: Triple)
    ensures t in HostTriples(k, e, hs)
        <==> t.kind == k && t.host in hs && t.scenario in e.scenarios && t.iterations == e.iterations
    decreases |hs|
  {
    if |hs| > 0 {
      var init := hs[..|hs| - 1];
      HostTriplesMembers(k, e, init, t);
      ScenarioTriplesMembers(k, hs[|hs| - 1], e.iterations, e.scenarios, t);
      assert hs == init + [hs[|hs| - 1]];
    }
  }

  lemma {:induction false} KindTriplesMembers(p: Preset, ks: seq<JobKind>, t: Triple)
    ensures t in KindTriples(p, ks)
        <==> t.kind in ks && t.kind in p && t.host in p[t.kind].hosts
             && t.scenario in p[t.kind].scenarios && t.iterations == p[t.kind].iterations
    decreases |ks|
  {
    if |ks| > 0 {
      var init, k := ks[..|ks| - 1], ks[|ks| - 1];
      KindTriplesMembers(p, init, t);
      if k in p {
        HostTriplesMembers(k, p[k], p[k].hosts, t);
      }
      assert ks == init + [k];
    }
  }

  /** A combination is expanded exactly when the preset has its kind, host and scenario. */
  lemma TriplesMembers(p: Preset, t: Triple)
    ensures t in Triples(p)
        <==> t.kind in p && t.host in p[t.kind].hosts
             && t.scenario in p[t.kind].scenarios && t.iterations == p[t.kind].iterations
  {
    KindTriplesMembers(p, AllJobKinds, t);
    assert t.kind in AllJobKinds by {
      match t.kind
      case Tsc => assert AllJobKinds[0] == Tsc;
      case TsServer => assert AllJobKinds[1] == TsServer;
      case Startup => assert AllJobKinds[2] == Startup;
    }
  }

  lemma {:induction false} HostTriplesLength(k: JobKind, e: PresetEntry, hs: seq<string>)
    ensures |HostTriples(k, e, hs)| == |hs| * |e.scenarios|
    decreases |hs|
  {
    if |hs| > 0 {
      HostTriplesLength(k, e, hs[..|hs| - 1]);
      ScenarioTriplesLength(k, hs[|hs| - 1], e.iterations, e.scenarios);
      calc {
        |HostTriples(k, e, hs)|;
        (|hs| - 1) * |e.scenarios| + |e.scenarios|;
        |hs| * |e.scenarios|;
      }
    }
  }

  lemma {:induction false} ScenarioTriplesLength(k: JobKind, h: string, iterations: int, ss: seq<Scenario>)
    ensures |ScenarioTriples(k, h, iterations, ss)| == |ss|
    decreases |ss|
  {
    if |ss| > 0 {
      ScenarioTriplesLength(k, h, iterations, ss[..|ss| - 1]);
    }
  }

  /** The preset requests hosts times scenarios combinations per kind it lists. */
  lemma TriplesLength(p: Preset)
    ensures |Triples(p)| == RequestedJobs(p)
  {
    var ks := AllJobKinds;
    forall k | k in p
      ensures |HostTriples(k, p[k], p[k].hosts)| == EntrySize(p, k)
    {
      HostTriplesLength(k, p[k], p[k].hosts);
    }
    assert ks[..0] == [] && ks[..3] == ks;
    KindTriplesSnoc(p, ks, 0);
    KindTriplesSnoc(p, ks, 1);
    KindTriplesSnoc(p, ks, 2);
  }

  // ---------------------------------------------------------------------------
  // Where jobs land.
  // ---------------------------------------------------------------------------

  /** All five buckets exist afterwards, the empty ones included. */
  lemma AllBucketsPresent(p: Preset, b: bool)
    ensures forall a: Agent :: a in BuildMatrix(p, b).matrix
  {
    RunKeepsBuckets(EmptyMatrix, Triples(p), b);
    forall a: Agent
      ensures a in EmptyMatrix
    {
      match a
      case Any =>
      case TsPerf1 =>
      case TsPerf2 =>
      case TsPerf3 =>
      case TsPerf4 =>
    }
  }

  /**
   * Bucket `a` holds a job under name `n` exactly when some expanded
   * combination writes it there; the job held is that of the last one.
   */
  lemma BuildMatrixLookup(p: Preset, b: bool, a: Agent, n: string)
    ensures n in BucketOf(BuildMatrix(p, b).matrix, a)
        <==> exists i :: 0 <= i < |Triples(p)| && Hits(Triples(p)[i], b, a, n)
    ensures n in BucketOf(BuildMatrix(p, b).matrix, a) ==>
              var i := LastHit(Triples(p), b, a, n);
              0 <= i < |Triples(p)| && BucketOf(BuildMatrix(p, b).matrix, a)[n] == JobOf(Triples(p)[i])
  {
    RunMembership(EmptyMatrix, Triples(p), b, a, n);
    RunLookup(EmptyMatrix, Triples(p), b, a, n);
    assert BucketOf(EmptyMatrix, a) == map[];
  }

  /** Without baselining every job is in the "any" bucket and the named buckets stay empty. */
  lemma NonBaselineUsesAnyOnly(p: Preset)
    ensures forall a :: a != Any ==> BucketOf(BuildMatrix(p, false).matrix, a) == map[]
    ensures forall t :: t in Triples(p) ==> NameOf(t) in BucketOf(BuildMatrix(p, false).matrix, Any)
  {
    forall a | a != Any
      ensures BucketOf(BuildMatrix(p, false).matrix, a) == map[]
    {
      RunUntargeted(EmptyMatrix, Triples(p), false, a);
      assert BucketOf(EmptyMatrix, a) == map[];
    }
    forall t | t in Triples(p)
      ensures NameOf(t) in BucketOf(BuildMatrix(p, false).matrix, Any)
    {
      var i :| 0 <= i < |Triples(p)| && Triples(p)[i] == t;
      BuildMatrixLookup(p, false, Any, NameOf(t));
      assert Hits(Triples(p)[i], false, Any, NameOf(t));
    }
  }

  /**
   * With baselining, the job of every expanded combination is filed under its
   * scenario's recorded agent, and bucket `a` only holds jobs of scenarios
   * recorded for `a`.
   */
  lemma BaselinePinsScenarioAgent(p: Preset, a: Agent, n: string)
    ensures forall t :: t in Triples(p) ==> NameOf(t) in BucketOf(BuildMatrix(p, true).matrix, t.scenario.agent)
    ensures n in BucketOf(BuildMatrix(p, true).matrix, a) ==>
              exists t :: t in Triples(p) && t.scenario.agent == a && NameOf(t) == n
                          && BucketOf(BuildMatrix(p, true).matrix, a)[n] == JobOf(t)
  {
    var ts := Triples(p);
    forall t | t in ts
      ensures NameOf(t) in BucketOf(BuildMatrix(p, true).matrix, t.scenario.agent)
    {
      var i :| 0 <= i < |ts| && ts[i] == t;
      BuildMatrixLookup(p, true, t.scenario.agent, NameOf(t));
      assert Hits(ts[i], true, t.scenario.agent, NameOf(t));
    }
    BuildMatrixLookup(p, true, a, n);
    if n in BucketOf(BuildMatrix(p, true).matrix, a) {
      var i := LastHit(ts, true, a, n);
      assert ts[i] in ts;
    }
  }

  /** The reserved machine never receives a job, whichever mode is selected. */
  lemma ReservedAgentIdle(p: Preset, b: bool)
    ensures BucketOf(BuildMatrix(p, b).matrix, Reserved) == map[]
  {
    var ts := Triples(p);
    forall i | 0 <= i < |ts|
      ensures Target(ts[i], b) != Reserved
    {
      assert IsBaselineAgent(ts[i].scenario.agent);
    }
    RunUntargeted(EmptyMatrix, ts, b, Reserved);
    assert BucketOf(EmptyMatrix, Reserved) == map[];
  }

  // ---------------------------------------------------------------------------
  // What a stored job holds.
  // ---------------------------------------------------------------------------

  /**
   * A stored job sits under its own name, which is the sanitized
   * kind_host_scenario string; it carries its entry's iteration count and its
   * scenario's location, and it is in the bucket its mode assigns.
   */
  lemma StoredJobFields(p: Preset, b: bool, a: Agent, n: string)
    requires n in BucketOf(BuildMatrix(p, b).matrix, a)
    ensures var job := BucketOf(BuildMatrix(p, b).matrix, a)[n];
      && job.name == n
      && job.name == Sanitize(KindName(job.kind) + "_" + job.host + "_" + job.scenario)
      && job.kind in p
      && job.host in p[job.kind].hosts
      && job.iterations == p[job.kind].iterations
      && (exists s :: s in p[job.kind].scenarios && s.name == job.scenario && s.location == job.location
                      && a == (if b then s.agent else Any))
  {
    BuildMatrixLookup(p, b, a, n);
    var ts := Triples(p);
    var t := ts[LastHit(ts, b, a, n)];
    TriplesMembers(p, t);
    assert t.scenario in p[t.kind].scenarios;
  }

  // ---------------------------------------------------------------------------
  // The summary sets.
  // ---------------------------------------------------------------------------

  /** A kind is reported exactly when its entry produced at least one job; none twice. */
  lemma ProcessedKindsExact(p: Preset, b: bool, k: JobKind)
    ensures k in BuildMatrix(p, b).kinds <==> k in p && |p[k].hosts| > 0 && |p[k].scenarios| > 0
    ensures NoDup(BuildMatrix(p, b).kinds)
  {
    var ts := Triples(p);
    RunKindsCollects([], ts, k);
    if k in p && |p[k].hosts| > 0 && |p[k].scenarios| > 0 {
      var t := Triple(k, p[k].hosts[0], p[k].scenarios[0], p[k].iterations);
      TriplesMembers(p, t);
      var i :| 0 <= i < |ts| && ts[i] == t;
    }
    if i :| 0 <= i < |ts| && ts[i].kind == k {
      TriplesMembers(p, ts[i]);
    }
  }

  /** A location is reported exactly when some expanded scenario has it; none twice. */
  lemma ProcessedLocationsExact(p: Preset, b: bool, l: Location)
    ensures l in BuildMatrix(p, b).locations
        <==> exists k, s :: k in p && |p[k].hosts| > 0 && s in p[k].scenarios && s.location == l
    ensures NoDup(BuildMatrix(p, b).locations)
  {
    var ts := Triples(p);
    RunLocationsCollects([], ts, l);
    if k, s :| k in p && |p[k].hosts| > 0 && s in p[k].scenarios && s.location == l {
      var t := Triple(k, p[k].hosts[0], s, p[k].iterations);
      TriplesMembers(p, t);
      var i :| 0 <= i < |ts| && ts[i] == t;
    }
    if i :| 0 <= i < |ts| && ts[i].scenario.location == l {
      TriplesMembers(p, ts[i]);
      assert ts[i].host in p[ts[i].kind].hosts;
    }
  }

  // ---------------------------------------------------------------------------
  // How many jobs.
  // ---------------------------------------------------------------------------

  /** Collisions can only lose jobs: never more than hosts times scenarios per kind. */
  lemma JobCountAtMostRequested(p: Preset, b: bool)
    ensures JobCount(BuildMatrix(p, b).matrix) <= RequestedJobs(p)
  {
    RunCountBound(EmptyMatrix, Triples(p), b);
    TriplesLength(p);
  }

  /** No two expanded combinations share a job name. */
  predicate DistinctNames(ts: seq<Triple>) {
    forall i, j :: 0 <= i < j < |ts| ==> NameOf(ts[i]) != NameOf(ts[j])
  }

  /** When no two combinations share a name, every requested job is stored. */
  lemma JobCountWhenNoCollisions(p: Preset, b: bool)
    requires DistinctNames(Triples(p))
    ensures JobCount(BuildMatrix(p, b).matrix) == RequestedJobs(p)
  {
    var ts := Triples(p);
    forall i | 0 <= i < |ts|
      ensures NameOf(ts[i]) !in BucketOf(EmptyMatrix, Target(ts[i], b))
    {
    }
    RunCountsEveryJob(EmptyMatrix, ts, b);
    TriplesLength(p);
  }
}
