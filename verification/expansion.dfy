/**
 * The matrix builder: every (job kind, host, scenario) combination a preset
 * requests becomes one job, stored in the bucket of the agent that should run
 * it, under the job's sanitized name. The kinds and locations touched are
 * collected as insertion-ordered sets for the summary output.
 */
module Expansion {
  import opened Agents
  import opened JobNames
  import opened Catalog
  import opened Seqs

  datatype Job = Job(
    kind: JobKind,
    name: string,
    host: string,
    scenario: string,
    iterations: int,
    location: Location)

  type Bucket = map<string, Job>

  type Matrix = map<Agent, Bucket>

  /** One combination requested by a preset, with its entry's iteration count. */
  datatype Triple = Triple(kind: JobKind, host: string, scenario: Scenario, iterations: int)

  /** The matrix under construction plus the kinds and locations seen so far, in first-seen order. */
  datatype State = State(matrix: Matrix, kinds: seq<JobKind>, locations: seq<Location>)

  const EmptyMatrix: Matrix := map[
    Any := map[], TsPerf1 := map[], TsPerf2 := map[], TsPerf3 := map[], TsPerf4 := map[]
  ]

  const Start: State := State(EmptyMatrix, [], [])

  function RawName(t: Triple): string {
    KindName(t.kind) + "_" + t.host + "_" + t.scenario.name
  }

  function NameOf(t: Triple): string {
    Sanitize(RawName(t))
  }

  function JobOf(t: Triple): Job {
    Job(t.kind, NameOf(t), t.host, t.scenario.name, t.iterations, t.scenario.location)
  }

  /** Baselining pins a job to its scenario's machine; otherwise the scheduler may pick. */
  function Target(t: Triple, baselining: bool): Agent {
    if baselining then t.scenario.agent else Any
  }

  /** True when storing `t` writes to bucket `a` under name `n`. */
  predicate Hits(t: Triple, baselining: bool, a: Agent, n: string) {
    Target(t, baselining) == a && NameOf(t) == n
  }

  function BucketOf(m: Matrix, a: Agent): Bucket {
    if a in m then m[a] else map[]
  }

  /** Stores `job` in bucket `a` under its own name, replacing an earlier job of that name. */
  function Insert(m: Matrix, a: Agent, job: Job): Matrix {
    m[a := BucketOf(m, a)[job.name := job]]
  }

  /** Insertion touches one bucket, and in it only the job's own name. */
  lemma InsertSpec(m: Matrix, a: Agent, job: Job)
    ensures Insert(m, a, job).Keys == m.Keys + {a}
    ensures job.name in BucketOf(Insert(m, a, job), a) && BucketOf(Insert(m, a, job), a)[job.name] == job
    ensures BucketOf(Insert(m, a, job), a).Keys == BucketOf(m, a).Keys + {job.name}
    ensures forall n :: n in BucketOf(m, a) && n != job.name ==> BucketOf(Insert(m, a, job), a)[n] == BucketOf(m, a)[n]
    ensures forall b :: b != a ==> BucketOf(Insert(m, a, job), b) == BucketOf(m, b)
  {
  }

  /** The effect of an insertion on one bucket and name. */
  lemma InsertAt(m: Matrix, a: Agent, job: Job, a2: Agent, n: string)
    ensures a2 == a && n == job.name ==>
              n in BucketOf(Insert(m, a, job), a2) && BucketOf(Insert(m, a, job), a2)[n] == job
    ensures a2 != a || n != job.name ==>
              (n in BucketOf(Insert(m, a, job), a2) <==> n in BucketOf(m, a2))
              && (n in BucketOf(m, a2) ==> BucketOf(Insert(m, a, job), a2)[n] == BucketOf(m, a2)[n])
  {
  }

  /** The job count changes only by the change in the one bucket that differs. */
  lemma JobCountChange(m: Matrix, r: Matrix, a: Agent)
    requires forall b :: b != a ==> BucketOf(r, b) == BucketOf(m, b)
    ensures JobCount(r) == JobCount(m) - |BucketOf(m, a)| + |BucketOf(r, a)|
  {
  }

  /** Adds `x` to a set kept in insertion order. */
  function AddToSet<T(==)>(s: seq<T>, x: T): seq<T> {
    if x in s then s else s + [x]
  }

  /** The set gains `x` and nothing else; existing elements keep their places; no element is repeated. */
  lemma AddToSetSpec<T>(s: seq<T>, x: T)
    ensures forall y :: y in AddToSet(s, x) <==> y in s || y == x
    ensures NoDup(s) ==> NoDup(AddToSet(s, x))
    ensures |s| <= |AddToSet(s, x)| && AddToSet(s, x)[..|s|] == s
  {
  }

  /** Stores the job of each combination of `ts` in turn. */
  function RunMatrix(m: Matrix, ts: seq<Triple>, baselining: bool): Matrix
    decreases |ts|
  {
    if |ts| == 0 then m
    else
      var t := ts[|ts| - 1];
      Insert(RunMatrix(m, ts[..|ts| - 1], baselining), Target(t, baselining), JobOf(t))
  }

  /** Adds each combination's job kind to the insertion-ordered kind set. */
  function RunKinds(ks: seq<JobKind>, ts: seq<Triple>): seq<JobKind>
    decreases |ts|
  {
    if |ts| == 0 then ks else AddToSet(RunKinds(ks, ts[..|ts| - 1]), ts[|ts| - 1].kind)
  }

  /** Adds each combination's scenario location to the insertion-ordered location set. */
  function RunLocations(ls: seq<Location>, ts: seq<Triple>): seq<Location>
    decreases |ts|
  {
    if |ts| == 0 then ls
    else AddToSet(RunLocations(ls, ts[..|ts| - 1]), ts[|ts| - 1].scenario.location)
  }

  /** One iteration of the innermost loop. */
  function Step(st: State, t: Triple, baselining: bool): State {
    State(
      Insert(st.matrix, Target(t, baselining), JobOf(t)),
      AddToSet(st.kinds, t.kind),
      AddToSet(st.locations, t.scenario.location))
  }

  /** The loop body applied to each combination of `ts` in turn. */
  function Run(st: State, ts: seq<Triple>, baselining: bool): State {
    State(
      RunMatrix(st.matrix, ts, baselining),
      RunKinds(st.kinds, ts),
      RunLocations(st.locations, ts))
  }

  function ScenarioTriples(k: JobKind, h: string, iterations: int, ss: seq<Scenario>): seq<Triple>
    decreases |ss|
  {
    if |ss| == 0 then []
    else ScenarioTriples(k, h, iterations, ss[..|ss| - 1]) + [Triple(k, h, ss[|ss| - 1], iterations)]
  }

  function HostTriples(k: JobKind, e: PresetEntry, hs: seq<string>): seq<Triple>
    decreases |hs|
  {
    if |hs| == 0 then []
    else HostTriples(k, e, hs[..|hs| - 1]) + ScenarioTriples(k, hs[|hs| - 1], e.iterations, e.scenarios)
  }

  function KindTriples(p: Preset, ks: seq<JobKind>): seq<Triple>
    decreases |ks|
  {
    if |ks| == 0 then []
    else
      var k := ks[|ks| - 1];
      KindTriples(p, ks[..|ks| - 1]) + (if k in p then HostTriples(k, p[k], p[k].hosts) else [])
  }

  /** Every combination the preset requests, in the order the generator visits them. */
  function Triples(p: Preset): seq<Triple> {
    KindTriples(p, AllJobKinds)
  }

  function BuildMatrix(p: Preset, baselining: bool): State {
    Run(Start, Triples(p), baselining)
  }

  /** The total number of jobs stored across the five buckets. */
  function JobCount(m: Matrix): nat {
    |BucketOf(m, Any)| + |BucketOf(m, TsPerf1)| + |BucketOf(m, TsPerf2)|
      + |BucketOf(m, TsPerf3)| + |BucketOf(m, TsPerf4)|
  }

  /** The number of jobs a preset requests: hosts times scenarios, summed over its kinds. */
  function EntrySize(p: Preset, k: JobKind): nat {
    if k in p then |p[k].hosts| * |p[k].scenarios| else 0
  }

  function RequestedJobs(p: Preset): nat {
    EntrySize(p, Tsc) + EntrySize(p, TsServer) + EntrySize(p, Startup)
  }

  // ---------------------------------------------------------------------------
  // The nested loops, written as the generator writes them.
  // ---------------------------------------------------------------------------

  /** The outer loop over job kinds; kinds absent from the preset are skipped. */
  method ExpandPreset(p: Preset, baselining: bool) returns (st: State)
    ensures st == BuildMatrix(p, baselining)
  {
    st := Start;
    var i := 0;
    while i < |AllJobKinds|
      invariant 0 <= i <= |AllJobKinds|
      invariant st == Run(Start, KindTriples(p, AllJobKinds[..i]), baselining)
    {
      var k := AllJobKinds[i];
      KindTriplesSnoc(p, AllJobKinds, i);
      if k in p {
        RunAppend(Start, KindTriples(p, AllJobKinds[..i]), HostTriples(k, p[k], p[k].hosts), baselining);
        st := ExpandHosts(st, k, p[k], baselining);
      } else {
        assert KindTriples(p, AllJobKinds[..i + 1]) == KindTriples(p, AllJobKinds[..i]);
      }
      i := i + 1;
    }
    assert AllJobKinds[..i] == AllJobKinds;
  }

  /** The middle loop over the hosts of one preset entry. */
  method ExpandHosts(st0: State, k: JobKind, e: PresetEntry, baselining: bool) returns (st: State)
    ensures st == Run(st0, HostTriples(k, e, e.hosts), baselining)
  {
    st := st0;
    var j := 0;
    while j < |e.hosts|
      invariant 0 <= j <= |e.hosts|
      invariant st == Run(st0, HostTriples(k, e, e.hosts[..j]), baselining)
    {
      HostStep(st0, k, e, j, baselining);
      st := ExpandScenarios(st, k, e.hosts[j], e, baselining);
      j := j + 1;
    }
    assert e.hosts[..j] == e.hosts;
  }

  /** The inner loop: one job per scenario of the entry, for a fixed kind and host. */
  method ExpandScenarios(st0: State, k: JobKind, h: string, e: PresetEntry, baselining: bool)
    returns (st: State)
    ensures st == Run(st0, ScenarioTriples(k, h, e.iterations, e.scenarios), baselining)
  {
    st := st0;
    var l := 0;
    while l < |e.scenarios|
      invariant 0 <= l <= |e.scenarios|
      invariant st == Run(st0, ScenarioTriples(k, h, e.iterations, e.scenarios[..l]), baselining)
    {
      ScenarioStep(st0, k, h, e, l, baselining);
      st := Step(st, Triple(k, h, e.scenarios[l], e.iterations), baselining);
      l := l + 1;
    }
    assert e.scenarios[..l] == e.scenarios;
  }

  /** Folding over two lists in a row is folding over their concatenation. */
  lemma {:induction false} RunAppend(st: State, xs: seq<Triple>, ys: seq<Triple>, b: bool)
    ensures Run(st, xs + ys, b) == Run(Run(st, xs, b), ys, b)
    decreases |ys|
  {
    if |ys| > 0 {
      var init := ys[..|ys| - 1];
      RunAppend(st, xs, init, b);
      assert (xs + ys)[..|xs + ys| - 1] == xs + init;
      assert (xs + ys)[|xs + ys| - 1] == ys[|ys| - 1];
    } else {
      assert xs + ys == xs;
    }
  }

  /** One pass of the middle loop body extends the fold by every scenario on the next host. */
  lemma HostStep(st0: State, k: JobKind, e: PresetEntry, j: int, b: bool)
    requires 0 <= j < |e.hosts|
    ensures Run(Run(st0, HostTriples(k, e, e.hosts[..j]), b),
                ScenarioTriples(k, e.hosts[j], e.iterations, e.scenarios), b)
         == Run(st0, HostTriples(k, e, e.hosts[..j + 1]), b)
  {
    HostTriplesSnoc(k, e, e.hosts, j);
    RunAppend(st0, HostTriples(k, e, e.hosts[..j]),
              ScenarioTriples(k, e.hosts[j], e.iterations, e.scenarios), b);
  }

  /** One pass of the inner loop body extends the fold by the next scenario. */
  lemma ScenarioStep(st0: State, k: JobKind, h: string, e: PresetEntry, l: int, b: bool)
    requires 0 <= l < |e.scenarios|
    ensures Step(Run(st0, ScenarioTriples(k, h, e.iterations, e.scenarios[..l]), b),
                 Triple(k, h, e.scenarios[l], e.iterations), b)
         == Run(st0, ScenarioTriples(k, h, e.iterations, e.scenarios[..l + 1]), b)
  {
    ScenarioTriplesSnoc(k, h, e.iterations, e.scenarios, l);
    RunSnoc(st0, ScenarioTriples(k, h, e.iterations, e.scenarios[..l]), Triple(k, h, e.scenarios[l], e.iterations), b);
  }

  lemma RunSnoc(st: State, ts: seq<Triple>, t: Triple, b: bool)
    ensures Run(st, ts + [t], b) == Step(Run(st, ts, b), t, b)
  {
    assert (ts + [t])[..|ts|] == ts;
  }

  lemma ScenarioTriplesSnoc(k: JobKind, h: string, iterations: int, ss: seq<Scenario>, l: int)
    requires 0 <= l < |ss|
    ensures ScenarioTriples(k, h, iterations, ss[..l + 1])
         == ScenarioTriples(k, h, iterations, ss[..l]) + [Triple(k, h, ss[l], iterations)]
  {
    assert ss[..l + 1][..l] == ss[..l];
  }

  lemma HostTriplesSnoc(k: JobKind, e: PresetEntry, hs: seq<string>, j: int)
    requires 0 <= j < |hs|
    ensures HostTriples(k, e, hs[..j + 1])
         == HostTriples(k, e, hs[..j]) + ScenarioTriples(k, hs[j], e.iterations, e.scenarios)
  {
    assert hs[..j + 1][..j] == hs[..j];
  }

  lemma KindTriplesSnoc(p: Preset, ks: seq<JobKind>, i: int)
    requires 0 <= i < |ks|
    ensures KindTriples(p, ks[..i + 1])
         == KindTriples(p, ks[..i]) + (if ks[i] in p then HostTriples(ks[i], p[ks[i]], p[ks[i]].hosts) else [])
  {
    assert ks[..i + 1][..i] == ks[..i];
  }

  // ---------------------------------------------------------------------------
  // Facts about the fold.
  // ---------------------------------------------------------------------------

  /** The index of the last combination of `ts` that writes name `n` into bucket `a`, or -1. */
  function LastHit(ts: seq<Triple>, b: bool, a: Agent, n: string): (r: int)
    ensures -1 <= r < |ts|
    ensures r >= 0 ==> Hits(ts[r], b, a, n)
    ensures forall j :: r < j < |ts| ==> !Hits(ts[j], b, a, n)
    decreases |ts|
  {
    if |ts| == 0 then -1
    else if Hits(ts[|ts| - 1], b, a, n) then |ts| - 1
    else
      var init := ts[..|ts| - 1];
      assert forall j :: 0 <= j < |init| ==> init[j] == ts[j];
      LastHit(init, b, a, n)
  }

  /**
   * Last write wins: after the fold, bucket `a` holds under `n` the job of the
   * last combination that wrote there; if none did, the entry is as it was.
   */
  lemma {:induction false} RunLookup(m: Matrix, ts: seq<Triple>, b: bool, a: Agent, n: string)
    ensures LastHit(ts, b, a, n) >= 0 ==>
              n in BucketOf(RunMatrix(m, ts, b), a)
              && BucketOf(RunMatrix(m, ts, b), a)[n] == JobOf(ts[LastHit(ts, b, a, n)])
    ensures LastHit(ts, b, a, n) < 0 ==>
              (n in BucketOf(RunMatrix(m, ts, b), a) <==> n in BucketOf(m, a))
              && (n in BucketOf(m, a) ==> BucketOf(RunMatrix(m, ts, b), a)[n] == BucketOf(m, a)[n])
    decreases |ts|
  {
    if |ts| > 0 {
      var init, t := ts[..|ts| - 1], ts[|ts| - 1];
      var before := RunMatrix(m, init, b);
      assert RunMatrix(m, ts, b) == Insert(before, Target(t, b), JobOf(t));
      InsertAt(before, Target(t, b), JobOf(t), a, n);
      if !Hits(t, b, a, n) {
        RunLookup(m, init, b, a, n);
        var i := LastHit(init, b, a, n);
        if i >= 0 {
          assert ts[i] == init[i];
        }
      }
    }
  }

  /** A name is in a bucket afterwards exactly when it was before or some combination wrote it there. */
  lemma RunMembership(m: Matrix, ts: seq<Triple>, b: bool, a: Agent, n: string)
    ensures n in BucketOf(RunMatrix(m, ts, b), a)
        <==> n in BucketOf(m, a) || exists i :: 0 <= i < |ts| && Hits(ts[i], b, a, n)
  {
    RunLookup(m, ts, b, a, n);
    var i := LastHit(ts, b, a, n);
    if i >= 0 {
      assert Hits(ts[i], b, a, n);
    }
  }

  /** The kinds collected are exactly those of the combinations visited, each once. */
  lemma {:induction false} RunKindsCollects(ks: seq<JobKind>, ts: seq<Triple>, k: JobKind)
    ensures k in RunKinds(ks, ts) <==> k in ks || exists i :: 0 <= i < |ts| && ts[i].kind == k
    ensures NoDup(ks) ==> NoDup(RunKinds(ks, ts))
    decreases |ts|
  {
    if |ts| > 0 {
      var init := ts[..|ts| - 1];
      RunKindsCollects(ks, init, k);
      AddToSetSpec(RunKinds(ks, init), ts[|ts| - 1].kind);
      if i :| 0 <= i < |ts| && ts[i].kind == k {
        if i < |init| {
          assert init[i] == ts[i];
        }
      }
      if i :| 0 <= i < |init| && init[i].kind == k {
        assert ts[i] == init[i];
      }
    }
  }

  /** The locations collected are exactly those of the scenarios visited, each once. */
  lemma {:induction false} RunLocationsCollects(ls: seq<Location>, ts: seq<Triple>, l: Location)
    ensures l in RunLocations(ls, ts)
        <==> l in ls || exists i :: 0 <= i < |ts| && ts[i].scenario.location == l
    ensures NoDup(ls) ==> NoDup(RunLocations(ls, ts))
    decreases |ts|
  {
    if |ts| > 0 {
      var init := ts[..|ts| - 1];
      RunLocationsCollects(ls, init, l);
      AddToSetSpec(RunLocations(ls, init), ts[|ts| - 1].scenario.location);
      if i :| 0 <= i < |ts| && ts[i].scenario.location == l {
        if i < |init| {
          assert init[i] == ts[i];
        }
      }
      if i :| 0 <= i < |init| && init[i].scenario.location == l {
        assert ts[i] == init[i];
      }
    }
  }

  /** A bucket nothing targets keeps its contents. */
  lemma {:induction false} RunUntargeted(m: Matrix, ts: seq<Triple>, b: bool, a: Agent)
    requires forall i :: 0 <= i < |ts| ==> Target(ts[i], b) != a
    ensures BucketOf(RunMatrix(m, ts, b), a) == BucketOf(m, a)
    decreases |ts|
  {
    if |ts| > 0 {
      var init, t := ts[..|ts| - 1], ts[|ts| - 1];
      RunUntargeted(m, init, b, a);
      InsertSpec(RunMatrix(m, init, b), Target(t, b), JobOf(t));
    }
  }

  /** The fold never drops a bucket. */
  lemma {:induction false} RunKeepsBuckets(m: Matrix, ts: seq<Triple>, b: bool)
    ensures m.Keys <= RunMatrix(m, ts, b).Keys
    decreases |ts|
  {
    if |ts| > 0 {
      var init, t := ts[..|ts| - 1], ts[|ts| - 1];
      RunKeepsBuckets(m, init, b);
      InsertSpec(RunMatrix(m, init, b), Target(t, b), JobOf(t));
    }
  }

  /**
   * When no two combinations write the same bucket and name, and none writes
   * a name already present, each combination adds exactly one job.
   */
  lemma {:induction false} RunCountsEveryJob(m: Matrix, ts: seq<Triple>, b: bool)
    requires forall i, j :: 0 <= i < j < |ts| ==> !Hits(ts[j], b, Target(ts[i], b), NameOf(ts[i]))
    requires forall i :: 0 <= i < |ts| ==> NameOf(ts[i]) !in BucketOf(m, Target(ts[i], b))
    ensures JobCount(RunMatrix(m, ts, b)) == JobCount(m) + |ts|
    decreases |ts|
  {
    if |ts| > 0 {
      var init, t := ts[..|ts| - 1], ts[|ts| - 1];
      assert forall i :: 0 <= i < |init| ==> init[i] == ts[i];
      RunCountsEveryJob(m, init, b);
      var a, n := Target(t, b), NameOf(t);
      RunMembership(m, init, b, a, n);
      forall i | 0 <= i < |init|
        ensures !Hits(init[i], b, a, n)
      {
        assert !Hits(ts[|ts| - 1], b, Target(ts[i], b), NameOf(ts[i]));
      }
      InsertFreshCount(RunMatrix(m, init, b), a, JobOf(t));
    }
  }

  /** Whatever collisions occur, the fold never stores more jobs than it visits. */
  lemma {:induction false} RunCountBound(m: Matrix, ts: seq<Triple>, b: bool)
    ensures JobCount(RunMatrix(m, ts, b)) <= JobCount(m) + |ts|
    decreases |ts|
  {
    if |ts| > 0 {
      var init, t := ts[..|ts| - 1], ts[|ts| - 1];
      RunCountBound(m, init, b);
      InsertCountBound(RunMatrix(m, init, b), Target(t, b), JobOf(t));
    }
  }

  lemma InsertFreshCount(m: Matrix, a: Agent, job: Job)
    requires job.name !in BucketOf(m, a)
    ensures JobCount(Insert(m, a, job)) == JobCount(m) + 1
  {
    var r := Insert(m, a, job);
    InsertSpec(m, a, job);
    JobCountChange(m, r, a);
    assert |BucketOf(r, a).Keys| == |BucketOf(m, a).Keys| + 1;
  }

  lemma InsertCountBound(m: Matrix, a: Agent, job: Job)
    ensures JobCount(Insert(m, a, job)) <= JobCount(m) + 1
  {
    var r := Insert(m, a, job);
    InsertSpec(m, a, job);
    JobCountChange(m, r, a);
    if job.name in BucketOf(m, a) {
      assert BucketOf(r, a).Keys == BucketOf(m, a).Keys;
    } else {
      assert |BucketOf(r, a).Keys| == |BucketOf(m, a).Keys| + 1;
    }
  }
}
