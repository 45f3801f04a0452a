/**
 * The execution agents a benchmark job can be assigned to: four physical
 * machines plus the synthetic "any" agent, which lets the scheduler pick.
 * One machine is reserved so that non-baseline jobs always make progress.
 */
module Agents {

  datatype Agent = Any | TsPerf1 | TsPerf2 | TsPerf3 | TsPerf4

  /** The machine kept free of baseline work. */
  const Reserved: Agent := TsPerf4

  /** Agents a scenario may be pinned to when baselining: not "any", not the reserved one. */
  predicate IsBaselineAgent(a: Agent) {
    a != Any && a != Reserved
  }

  type BaselineAgent = a: Agent | IsBaselineAgent(a) witness TsPerf1

  /** The agents in the order the matrix object lists them. */
  const AllAgents: seq<Agent> := [Any, TsPerf1, TsPerf2, TsPerf3, TsPerf4]

  function AgentName(a: Agent): string {
    match a
    case Any => "any"
    case TsPerf1 => "ts-perf1"
    case TsPerf2 => "ts-perf2"
    case TsPerf3 => "ts-perf3"
    case TsPerf4 => "ts-perf4"
  }

  /** Every agent occurs in AllAgents exactly once. */
  lemma AllAgentsComplete(a: Agent)
    ensures a in AllAgents
    ensures forall i, j :: 0 <= i < j < |AllAgents| ==> AllAgents[i] != AllAgents[j]
  {
    match a
    case Any => assert AllAgents[0] == a;
    case TsPerf1 => assert AllAgents[1] == a;
    case TsPerf2 => assert AllAgents[2] == a;
    case TsPerf3 => assert AllAgents[3] == a;
    case TsPerf4 => assert AllAgents[4] == a;
  }
}
