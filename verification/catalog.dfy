/**
 * The static configuration: job kinds, hosts, the scenario lists with their
 * baseline agents, and the named presets. A preset maps some job kinds to an
 * entry saying which hosts to run on, how many iterations, and which scenarios.
 */
module Catalog {
  import opened Wrappers
  import opened Agents

  /** Job kinds, in the order the scenario configuration declares them. */
  datatype JobKind = Tsc | TsServer | Startup

  const AllJobKinds: seq<JobKind> := [Tsc, TsServer, Startup]

  function KindName(k: JobKind): string {
    match k
    case Tsc => "tsc"
    case TsServer => "tsserver"
    case Startup => "startup"
  }

  datatype Location = Internal | Public

  function LocationName(l: Location): string {
    match l
    case Internal => "internal"
    case Public => "public"
  }

  /** A benchmark scenario; `agent` is where it always runs when baselining. */
  datatype Scenario = Scenario(name: string, agent: BaselineAgent, location: Location)

  datatype PresetEntry = PresetEntry(hosts: seq<string>, iterations: int, scenarios: seq<Scenario>)

  /** Kinds absent from the map are not run. */
  type Preset = map<JobKind, PresetEntry>

  const DefaultIterations: int := 6

  const Node20: string := "node@20.5.1"
  const Node18: string := "node@18.15.0"
  const Node16: string := "node@16.17.1"
  const Bun: string := "bun@1.0.15"
  const VsCode: string := "vscode@1.82.1"

  const TscScenarios: seq<Scenario> := [
    Scenario("Angular", TsPerf1, Internal),
    Scenario("Monaco", TsPerf2, Internal),
    Scenario("TFS", TsPerf3, Internal),
    Scenario("material-ui", TsPerf1, Internal),
    Scenario("Compiler-Unions", TsPerf2, Internal),
    Scenario("xstate", TsPerf3, Internal)
  ]

  const TsServerScenarios: seq<Scenario> := [
    Scenario("Compiler-UnionsTSServer", TsPerf1, Internal),
    Scenario("CompilerTSServer", TsPerf2, Internal),
    Scenario("xstateTSServer", TsPerf3, Internal)
  ]

  const StartupScenarios: seq<Scenario> := [
    Scenario("tsc-startup", TsPerf1, Internal),
    Scenario("tsserver-startup", TsPerf2, Internal),
    Scenario("tsserverlibrary-startup", TsPerf3, Internal),
    Scenario("typescript-startup", TsPerf1, Internal)
  ]

  /** The scenarios of `ss` whose name is not `name`, in their original order. */
  function WithoutScenario(ss: seq<Scenario>, name: string): (r: seq<Scenario>)
    ensures forall s :: s in r <==> s in ss && s.name != name
    ensures |r| <= |ss|
  {
    if |ss| == 0 then []
    else if ss[0].name == name then WithoutScenario(ss[1..], name)
    else [ss[0]] + WithoutScenario(ss[1..], name)
  }

  /** Filtering works element by element: it distributes over concatenation. */
  lemma {:induction false} WithoutScenarioAppend(xs: seq<Scenario>, ys: seq<Scenario>, name: string)
    ensures WithoutScenario(xs + ys, name) == WithoutScenario(xs, name) + WithoutScenario(ys, name)
    decreases |xs|
  {
    if |xs| > 0 {
      assert (xs + ys)[0] == xs[0] && (xs + ys)[1..] == xs[1..] + ys;
      WithoutScenarioAppend(xs[1..], ys, name);
    } else {
      assert xs + ys == ys;
    }
  }

  /** A single scenario is dropped exactly when it carries the name. */
  lemma WithoutScenarioSingle(s: Scenario, name: string)
    ensures WithoutScenario([s], name) == if s.name == name then [] else [s]
  {
  }

  const Full: Preset := map[
    Tsc := PresetEntry([Node20, Node18, Node16], DefaultIterations, TscScenarios),
    TsServer := PresetEntry([Node16], DefaultIterations, TsServerScenarios),
    Startup := PresetEntry([Node16], DefaultIterations, StartupScenarios)
  ]

  const Regular: Preset := map[
    Tsc := PresetEntry([Node18], DefaultIterations, TscScenarios),
    TsServer := PresetEntry([Node18], DefaultIterations, TsServerScenarios),
    Startup := PresetEntry([Node18], DefaultIterations, StartupScenarios)
  ]

  const TscOnly: Preset := map[
    Tsc := PresetEntry([Node18], DefaultIterations, TscScenarios)
  ]

  const BunPreset: Preset := map[
    Tsc := PresetEntry([Bun], DefaultIterations * 2, TscScenarios),
    Startup := PresetEntry([Bun], DefaultIterations, WithoutScenario(StartupScenarios, "tsserver-startup"))
  ]

  const VsCodePreset: Preset := map[
    Tsc := PresetEntry([VsCode], DefaultIterations, TscScenarios),
    TsServer := PresetEntry([VsCode], DefaultIterations, TsServerScenarios),
    Startup := PresetEntry([VsCode], DefaultIterations, StartupScenarios)
  ]

  /** The preset registry, keyed by exact name. */
  function PresetNamed(name: string): Option<Preset> {
    if name == "full" then Some(Full)
    else if name == "regular" then Some(Regular)
    else if name == "tsc-only" then Some(TscOnly)
    else if name == "bun" then Some(BunPreset)
    else if name == "vscode" then Some(VsCodePreset)
    else None
  }

  datatype Error = UnknownPreset(name: string)

  /** Exact-name lookup in the preset registry; any other name is an error. */
  function ResolvePreset(name: string): (r: Result<Preset, Error>)
    ensures r.Err? <==> name !in {"full", "regular", "tsc-only", "bun", "vscode"}
    ensures r.Err? ==> r.error == UnknownPreset(name)
    ensures r.Ok? ==> Tsc in r.value
  {
    match PresetNamed(name)
    case Some(p) => Ok(p)
    case None => Err(UnknownPreset(name))
  }

  /** Removing the tsserver startup scenario leaves the other three, in order. */
  lemma StartupWithoutTsServer()
    ensures StartupScenarios[1].name == "tsserver-startup"
    ensures WithoutScenario(StartupScenarios, "tsserver-startup")
         == [StartupScenarios[0], StartupScenarios[2], StartupScenarios[3]]
  {
    var ss := StartupScenarios;
    var tail := ss[3..];
    assert tail == [ss[3]] && tail[1..] == [];
    assert WithoutScenario(tail, "tsserver-startup") == [ss[3]];
    assert ss[2..] == [ss[2]] + tail && ss[2..][1..] == tail;
    assert ss[1..][1..] == ss[2..];
    assert ss[1..][0] == ss[1];
  }

  /** The deltas that make the bun preset differ from the regular one. */
  lemma BunPresetDeltas()
    ensures Tsc in BunPreset && BunPreset[Tsc].iterations == 2 * DefaultIterations == 12
    ensures TsServer !in BunPreset
    ensures Startup in BunPreset
    ensures BunPreset[Startup].scenarios
         == [StartupScenarios[0], StartupScenarios[2], StartupScenarios[3]]
    ensures StartupScenarios[1].name == "tsserver-startup"
  {
    StartupWithoutTsServer();
  }

  /** Every scenario entry of every preset is pinned to one of the three baseline machines. */
  lemma CatalogNeverPinsReserved(name: string, k: JobKind, s: Scenario)
    requires PresetNamed(name).Some? && k in PresetNamed(name).value
    requires s in PresetNamed(name).value[k].scenarios
    ensures s.agent in {TsPerf1, TsPerf2, TsPerf3}
    ensures s.agent != Reserved
  {
  }

  /**
   * The registry is a plain object, so a name that is not one of its own keys
   * but is a property every object inherits ("toString", "constructor", ...)
   * still yields a truthy value. Reading any job kind from that value yields
   * nothing, so it behaves like a preset with no entries.
   */
  const InheritedObjectKeys: set<string> := {
    "constructor", "hasOwnProperty", "isPrototypeOf", "propertyIsEnumerable",
    "toLocaleString", "toString", "valueOf", "__proto__",
    "__defineGetter__", "__defineSetter__", "__lookupGetter__", "__lookupSetter__"
  }

  /** The lookup as the registry object actually performs it. */
  function ResolvePresetAsWritten(name: string): (r: Result<Preset, Error>)
    ensures name in {"full", "regular", "tsc-only", "bun", "vscode"} ==> r == ResolvePreset(name)
    ensures name !in {"full", "regular", "tsc-only", "bun", "vscode"} ==>
              (r.Ok? <==> name in InheritedObjectKeys) && (r.Ok? ==> r.value == map[])
    ensures r.Err? ==> r.error == UnknownPreset(name)
  {
    match PresetNamed(name)
    case Some(p) => Ok(p)
    case None => if name in InheritedObjectKeys then Ok(map[]) else Err(UnknownPreset(name))
  }

  /** No inherited property name is also a preset name. */
  lemma InheritedKeysAreNotPresets(name: string)
    requires name in InheritedObjectKeys
    ensures PresetNamed(name).None?
  {
    // Only two inherited names share a length with a preset name; they differ early.
    if name == "toString" {
      assert name[1] != "tsc-only"[1];
    } else if name == "valueOf" {
      assert name[0] != "regular"[0];
    } else {
      assert |name| !in {3, 4, 6, 7, 8};
    }
  }
}
