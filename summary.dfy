/** The per-agent summary table `resumen` (code.py:89-95). */
module Summary {
  import opened Wrappers
  import opened Normalization
  import opened Attribution
  import opened Counting

  /**
   * One group of the summary: "Total_Llamadas", "Llamadas_Perdidas" and
   * "Duración_Total_Min" (here in seconds) for one credited agent.
   */
  datatype AgentSummary = AgentSummary(agent: string, total: nat, missed: nat, durationSeconds: int)

  /** Total talk time, in seconds, of the rows credited to `a`. */
  function AgentDuration(rows: seq<AttributedRecord>, a: string): int
  {
    if rows == [] then 0
    else
      var last := rows[|rows| - 1];
      AgentDuration(rows[..|rows| - 1], a) + (if last.finalAgent == a then last.call.durationSeconds else 0)
  }

  /** The agents that have a group in `gs`. */
  function AgentSet(gs: seq<AgentSummary>): set<string>
  {
    if gs == [] then {} else {gs[0].agent} + AgentSet(gs[1..])
  }

  /** No agent has two groups. */
  predicate DistinctAgents(gs: seq<AgentSummary>)
  {
    gs == [] || (gs[0].agent !in AgentSet(gs[1..]) && DistinctAgents(gs[1..]))
  }

  /** The group of agent `a`, if there is one. */
  function Find(gs: seq<AgentSummary>, a: string): (r: Option<AgentSummary>)
    ensures r.Some? ==> r.value.agent == a
    ensures r.Some? <==> a in AgentSet(gs)
  {
    if gs == [] then None
    else if gs[0].agent == a then Some(gs[0])
    else Find(gs[1..], a)
  }

  /** Sum of the groups' call totals. */
  function SumTotals(gs: seq<AgentSummary>): nat
  {
    if gs == [] then 0 else gs[0].total + SumTotals(gs[1..])
  }

  /** A group after counting one more row credited to its agent. */
  function Tally(g: Option<AgentSummary>, x: AttributedRecord): AgentSummary
  {
    var m := if x.call.missed then 1 else 0;
    match g
    case None => AgentSummary(x.finalAgent, 1, m, x.call.durationSeconds)
    case Some(s) => AgentSummary(s.agent, s.total + 1, s.missed + m, s.durationSeconds + x.call.durationSeconds)
  }

  /** Counts one row into the groups: its agent's group grows, or a new group starts. */
  function AddRow(gs: seq<AgentSummary>, x: AttributedRecord): (r: seq<AgentSummary>)
    ensures AgentSet(r) == AgentSet(gs) + {x.finalAgent}
    ensures DistinctAgents(gs) ==> DistinctAgents(r)
    ensures SumTotals(r) == SumTotals(gs) + 1
    ensures Find(r, x.finalAgent) == Some(Tally(Find(gs, x.finalAgent), x))
    ensures forall a :: a != x.finalAgent ==> Find(r, a) == Find(gs, a)
  {
    if gs == [] then [Tally(None, x)]
    else if gs[0].agent == x.finalAgent then [Tally(Some(gs[0]), x)] + gs[1..]
    else
      var rest := AddRow(gs[1..], x);
      assert ([gs[0]] + rest)[1..] == rest;
      [gs[0]] + rest
  }

  /** The summary groups, in order of each agent's first row. */
  function Summarize(rows: seq<AttributedRecord>): (r: seq<AgentSummary>)
    ensures DistinctAgents(r)
    ensures SumTotals(r) == |rows|
  {
    if rows == [] then [] else AddRow(Summarize(rows[..|rows| - 1]), rows[|rows| - 1])
  }

  /** What the group of `a` should hold, counted directly from the rows. */
  function ExpectedGroup(rows: seq<AttributedRecord>, a: string): Option<AgentSummary>
  {
    if Count(rows, ByAgent(a)) == 0 then None
    else Some(AgentSummary(a, Count(rows, ByAgent(a)), Count(rows, MissedBy(a)), AgentDuration(rows, a)))
  }

  /** An agent with no rows has no missed rows and no talk time. */
  lemma {:induction false} NoRowsOfAgent(rows: seq<AttributedRecord>, a: string)
    requires Count(rows, ByAgent(a)) == 0
    ensures Count(rows, MissedBy(a)) == 0 && AgentDuration(rows, a) == 0
  {
    if rows != [] {
      NoRowsOfAgent(rows[..|rows| - 1], a);
    }
  }

  /** Counting one more row changes only the expected group of that row's agent, as `Tally` does. */
  lemma ExpectedGroupStep(rows: seq<AttributedRecord>, a: string)
    requires rows != []
    ensures var init, last := rows[..|rows| - 1], rows[|rows| - 1];
      ExpectedGroup(rows, a) == if last.finalAgent == a then Some(Tally(ExpectedGroup(init, a), last)) else ExpectedGroup(init, a)
  {
    var init, last := rows[..|rows| - 1], rows[|rows| - 1];
    if last.finalAgent == a && Count(init, ByAgent(a)) == 0 {
      NoRowsOfAgent(init, a);
    }
  }

  /** Each agent's group holds exactly the counts and total taken over its rows. */
  lemma {:induction false} SummarizeFind(rows: seq<AttributedRecord>, a: string)
    ensures Find(Summarize(rows), a) == ExpectedGroup(rows, a)
  {
    if rows != [] {
      var init := rows[..|rows| - 1];
      SummarizeFind(init, a);
      ExpectedGroupStep(rows, a);
    }
  }

  /** In a list without repeated agents, an agent's group is found at its position. */
  lemma {:induction false} FindAt(gs: seq<AgentSummary>, i: nat)
    requires DistinctAgents(gs) && i < |gs|
    ensures Find(gs, gs[i].agent) == Some(gs[i])
  {
    if i > 0 {
      FindAt(gs[1..], i - 1);
      assert gs[1..][i - 1] == gs[i];
      assert gs[0].agent != gs[i].agent;
    }
  }

  /**
   * Every group counts the rows credited to its agent (at least one), the
   * missed ones among them (no more than the total) and their talk time.
   */
  lemma SummaryGroup(rows: seq<AttributedRecord>, i: nat)
    requires i < |Summarize(rows)|
    ensures var g := Summarize(rows)[i];
      && g.total == Count(rows, ByAgent(g.agent))
      && g.missed == Count(rows, MissedBy(g.agent))
      && g.durationSeconds == AgentDuration(rows, g.agent)
      && 1 <= g.total
      && g.missed <= g.total
  {
    var g := Summarize(rows)[i];
    FindAt(Summarize(rows), i);
    SummarizeFind(rows, g.agent);
    CountMonotone(rows, MissedBy(g.agent), ByAgent(g.agent));
  }

  /** An agent has a group exactly when some row is credited to it. */
  lemma SummaryAgents(rows: seq<AttributedRecord>, a: string)
    ensures a in AgentSet(Summarize(rows)) <==> exists k :: 0 <= k < |rows| && rows[k].finalAgent == a
  {
    SummarizeFind(rows, a);
    CountPositive(rows, ByAgent(a));
  }

  /** "% Perdidas": the share of missed calls in a group, in percent. */
  function PercentMissed(g: AgentSummary): (p: real)
    requires g.total > 0
    ensures p * (g.total as real) == 100.0 * (g.missed as real)
    ensures g.missed <= g.total ==> 0.0 <= p <= 100.0
  {
    (g.missed as real) / (g.total as real) * 100.0
  }
}
