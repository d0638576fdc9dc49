/** Row counts over the expanded table, the building block of every aggregate. */
module Counting {
  import opened Wrappers
  import opened Normalization
  import opened Attribution

  /** The rows a count is taken over. */
  datatype Criterion =
    | ByAgent(agent: string)                  // credited to `agent`
    | MissedBy(agent: string)                 // credited to `agent` and missed
    | ByDay(day: string)                      // on the weekday labelled `day`
    | ByCell(hour: int, day: string)          // at `hour` on the weekday labelled `day`
    | ByDayFrom(day: string, fromHour: int)   // on `day`, at `fromHour` or later

  predicate Matches(x: AttributedRecord, c: Criterion)
  {
    match c
    case ByAgent(a) => x.finalAgent == a
    case MissedBy(a) => x.finalAgent == a && x.call.missed
    case ByDay(l) => x.call.diaSemana == Some(l)
    case ByCell(h, l) => x.call.hora == h && x.call.diaSemana == Some(l)
    case ByDayFrom(l, h) => x.call.hora >= h && x.call.diaSemana == Some(l)
  }

  /** Number of rows of `rows` that match `c`. */
  function Count(rows: seq<AttributedRecord>, c: Criterion): (n: nat)
    ensures n <= |rows|
  {
    if rows == [] then 0
    else Count(rows[..|rows| - 1], c) + (if Matches(rows[|rows| - 1], c) then 1 else 0)
  }

  /** A single row counts one when it matches, zero otherwise. */
  lemma CountSingle(x: AttributedRecord, c: Criterion)
    ensures Count([x], c) == if Matches(x, c) then 1 else 0
  {
    assert [x][..0] == [];
  }

  /** A count is positive exactly when some row matches. */
  lemma {:induction false} CountPositive(rows: seq<AttributedRecord>, c: Criterion)
    ensures Count(rows, c) > 0 <==> exists k :: 0 <= k < |rows| && Matches(rows[k], c)
  {
    if rows != [] {
      var init := rows[..|rows| - 1];
      CountPositive(init, c);
      if Count(init, c) > 0 {
        var k :| 0 <= k < |init| && Matches(init[k], c);
        assert rows[k] == init[k];
      }
      if exists k :: 0 <= k < |rows| && Matches(rows[k], c) {
        var k :| 0 <= k < |rows| && Matches(rows[k], c);
        if k < |init| {
          assert init[k] == rows[k];
        }
      }
    }
  }

  /** A weaker criterion counts at least as many rows. */
  lemma {:induction false} CountMonotone(rows: seq<AttributedRecord>, c1: Criterion, c2: Criterion)
    requires forall k :: 0 <= k < |rows| && Matches(rows[k], c1) ==> Matches(rows[k], c2)
    ensures Count(rows, c1) <= Count(rows, c2)
  {
    if rows != [] {
      var init := rows[..|rows| - 1];
      assert forall k :: 0 <= k < |init| ==> init[k] == rows[k];
      CountMonotone(init, c1, c2);
    }
  }

  /** A criterion that is the disjoint union of two others counts their sum. */
  lemma {:induction false} CountSplit(rows: seq<AttributedRecord>, c: Criterion, c1: Criterion, c2: Criterion)
    requires forall k :: 0 <= k < |rows| ==>
      (Matches(rows[k], c) <==> Matches(rows[k], c1) || Matches(rows[k], c2))
    requires forall k :: 0 <= k < |rows| ==> !(Matches(rows[k], c1) && Matches(rows[k], c2))
    ensures Count(rows, c) == Count(rows, c1) + Count(rows, c2)
  {
    if rows != [] {
      var init := rows[..|rows| - 1];
      assert forall k :: 0 <= k < |init| ==> init[k] == rows[k];
      CountSplit(init, c, c1, c2);
    }
  }

  /** Two criteria that agree on every row count the same. */
  lemma {:induction false} CountSame(rows: seq<AttributedRecord>, c1: Criterion, c2: Criterion)
    requires forall k :: 0 <= k < |rows| ==> (Matches(rows[k], c1) <==> Matches(rows[k], c2))
    ensures Count(rows, c1) == Count(rows, c2)
  {
    if rows != [] {
      var init := rows[..|rows| - 1];
      assert forall k :: 0 <= k < |init| ==> init[k] == rows[k];
      CountSame(init, c1, c2);
    }
  }
}
