/**
 * Attribution: every normalised call becomes zero, one or several attributed
 * rows, each crediting one agent (code.py:59-75).
 */
module Attribution {
  import opened Wrappers
  import opened Normalization
  import opened Roster

  /** The pandas error that stops the script: a lookup of missing columns. */
  datatype ScriptError = KeyError(keys: seq<string>)

  /** A copy of a call row together with the agent it is credited to ("AgenteFinal"). */
  datatype AttributedRecord = AttributedRecord(call: CallRecord, finalAgent: string)

  /** The credited agents of `rs`, in order. */
  function FinalAgents(rs: seq<AttributedRecord>): (r: seq<string>)
    ensures |r| == |rs|
    ensures forall k :: 0 <= k < |rs| ==> r[k] == rs[k].finalAgent
  {
    seq(|rs|, k requires 0 <= k < |rs| => rs[k].finalAgent)
  }

  /**
   * The rows credited for one call: a missed call in an hour with a roster is
   * copied once per agent on duty; otherwise the call is copied once for its
   * own agent, if it has one.
   */
  function Emit(c: CallRecord): (r: seq<AttributedRecord>)
    ensures forall k :: 0 <= k < |r| ==> r[k].call == c
  {
    var duty := DutyAgents(c.hora);
    if c.missed && duty != [] then
      seq(|duty|, k requires 0 <= k < |duty| => AttributedRecord(c, duty[k]))
    else if c.agentName.Some? then
      [AttributedRecord(c, c.agentName.value)]
    else
      []
  }

  /**
   * A missed call in an hour with a roster R yields |R| rows crediting the
   * agents of R in roster order, all different; the call's own agent name
   * plays no part.
   */
  lemma MissedFanOut(c: CallRecord, name: Option<string>)
    requires c.missed && DutyAgents(c.hora) != []
    ensures |Emit(c)| == |DutyAgents(c.hora)|
    ensures FinalAgents(Emit(c)) == DutyAgents(c.hora)
    ensures FinalAgents(Emit(c.(agentName := name))) == FinalAgents(Emit(c))
    ensures NoDuplicates(FinalAgents(Emit(c)))
  {
    DutyAgentsShifts(c.hora);
  }

  /**
   * Any other call yields at most one row, exactly when it has an agent name,
   * and that row is credited to that name.
   */
  lemma SingleAttribution(c: CallRecord)
    requires !(c.missed && DutyAgents(c.hora) != [])
    ensures |Emit(c)| <= 1
    ensures |Emit(c)| == 1 <==> c.agentName.Some?
    ensures |Emit(c)| == 1 ==> Emit(c)[0].finalAgent == c.agentName.value
  {
  }

  /** How many rows a call yields, counted from the rules above. */
  function EmissionCount(c: CallRecord): (n: nat)
    ensures n <= 3
  {
    if c.missed && |DutyAgents(c.hora)| > 0 then |DutyAgents(c.hora)|
    else if c.agentName.Some? then 1
    else 0
  }

  /** Sum of the emission counts of `rows`. */
  function TotalEmissions(rows: seq<CallRecord>): nat
  {
    if rows == [] then 0
    else TotalEmissions(rows[..|rows| - 1]) + EmissionCount(rows[|rows| - 1])
  }

  /** `f` applied to every element of `s`, the results joined in order. */
  function FlatMap<T, U>(f: T -> seq<U>, s: seq<T>): (r: seq<U>)
    ensures s == [] ==> r == []
  {
    if s == [] then [] else FlatMap(f, s[..|s| - 1]) + f(s[|s| - 1])
  }

  /** Joining goes element by element: it distributes over concatenation. */
  lemma {:induction false} FlatMapAppend<T, U>(f: T -> seq<U>, a: seq<T>, b: seq<T>)
    ensures FlatMap(f, a + b) == FlatMap(f, a) + FlatMap(f, b)
    decreases |b|
  {
    if b == [] {
      assert a + b == a;
    } else {
      var b' := b[..|b| - 1];
      assert (a + b)[..|a + b| - 1] == a + b';
      assert (a + b)[|a + b| - 1] == b[|b| - 1];
      FlatMapAppend(f, a, b');
    }
  }

  /** The expanded table: the rows every call yields, call after call. */
  function Attribute(rows: seq<CallRecord>): (r: seq<AttributedRecord>)
  {
    FlatMap(Emit, rows)
  }

  /**
   * Every expanded row copies a call of the table and credits either the
   * call's own agent (when the call is not a missed call in a duty hour) or
   * an agent on duty at the hour of the missed call.
   */
  lemma {:induction false} AttributeProvenance(rows: seq<CallRecord>)
    ensures forall x :: x in Attribute(rows) ==> x.call in rows
    ensures forall x :: x in Attribute(rows) ==>
      || (x.call.agentName == Some(x.finalAgent) && !(x.call.missed && DutyAgents(x.call.hora) != []))
      || (x.call.missed && x.finalAgent in DutyAgents(x.call.hora))
  {
    if rows != [] {
      var init := rows[..|rows| - 1];
      var last := rows[|rows| - 1];
      AttributeProvenance(init);
      assert forall c :: c in init ==> c in rows;
      assert Attribute(rows) == Attribute(init) + Emit(last);
    }
  }

  /** Expansion works call by call: it distributes over concatenation. */
  lemma AttributeAppend(a: seq<CallRecord>, b: seq<CallRecord>)
    ensures Attribute(a + b) == Attribute(a) + Attribute(b)
  {
    FlatMapAppend(Emit, a, b);
  }

  /** The expanded table has as many rows as the emission counts add up to. */
  lemma {:induction false} AttributeLength(rows: seq<CallRecord>)
    ensures |Attribute(rows)| == TotalEmissions(rows)
    ensures |Attribute(rows)| <= 3 * |rows|
  {
    if rows != [] {
      var c := rows[|rows| - 1];
      AttributeLength(rows[..|rows| - 1]);
      if c.missed && DutyAgents(c.hora) != [] {
        MissedFanOut(c, c.agentName);
        DutyAgentsShifts(c.hora);
      } else {
        SingleAttribution(c);
      }
    }
  }

  /**
   * No call of `df` yields a row: each is unnamed and not a missed call in a
   * duty hour.
   */
  predicate NothingAttributed(df: seq<CallRecord>)
  {
    forall k :: 0 <= k < |df| ==> EmissionCount(df[k]) == 0
  }

  /** The expanded table is empty exactly when no call of the table yields a row. */
  lemma {:induction false} AttributeEmpty(df: seq<CallRecord>)
    ensures Attribute(df) == [] <==> NothingAttributed(df)
  {
    if df != [] {
      var init := df[..|df| - 1];
      var last := df[|df| - 1];
      AttributeEmpty(init);
      AttributeLength(df);
      AttributeLength(init);
      assert forall k :: 0 <= k < |init| ==> init[k] == df[k];
      assert TotalEmissions(df) == TotalEmissions(init) + EmissionCount(last);
    }
  }

  /**
   * `df_expandido` as the script builds it from `filas`: a frame made from an
   * empty list has no "AgenteFinal" column, so the null filter that follows
   * fails with a KeyError. Otherwise the filter keeps every row, since every
   * appended row names an agent.
   */
  function ExpandedFrameAsWritten(filas: seq<AttributedRecord>): (r: Result<seq<AttributedRecord>, ScriptError>)
    ensures r.Failure? <==> filas == []
    ensures r.Failure? ==> r.error == KeyError(["AgenteFinal"])
    ensures r.Success? ==> r.value == filas
  {
    if filas == [] then Failure(KeyError(["AgenteFinal"])) else Success(filas)
  }

  /**
   * The frame built from the expansion of `df` fails exactly when no call of
   * `df` yields a row.
   */
  lemma ExpandedFrameFails(df: seq<CallRecord>)
    ensures ExpandedFrameAsWritten(Attribute(df)).Failure? <==> NothingAttributed(df)
  {
    AttributeEmpty(df);
  }

  /**
   * The loop that builds `filas`: it appends, call by call, the rows `Emit`
   * describes.
   */
  method ExpandRows(df: seq<CallRecord>) returns (filas: seq<AttributedRecord>)
    ensures filas == Attribute(df)
  {
    filas := [];
    for i := 0 to |df|
      invariant filas == Attribute(df[..i])
    {
      var row := df[i];
      assert df[..i + 1][..i] == df[..i];
      if row.missed {
        var agentes := DutyAgents(row.hora);
        if agentes != [] {
          ghost var before := filas;
          for j := 0 to |agentes|
            invariant filas == before + seq(j, k requires 0 <= k < j => AttributedRecord(row, agentes[k]))
          {
            filas := filas + [AttributedRecord(row, agentes[j])];
          }
        } else if row.agentName.Some? {
          filas := filas + [AttributedRecord(row, row.agentName.value)];
        }
      } else if row.agentName.Some? {
        filas := filas + [AttributedRecord(row, row.agentName.value)];
      }
    }
    assert df[..|df|] == df;
  }
}
