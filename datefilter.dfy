/** The inclusive date-range filter applied to both tables (code.py:84-85). */
module DateFilter {
  import opened Normalization
  import opened Attribution

  /** The call's date lies in the chosen range, both ends included. */
  predicate InRange(c: CallRecord, lo: Date, hi: Date)
  {
    lo <= c.fecha <= hi
  }

  /** `a` is obtained from `b` by deleting elements, keeping order. */
  predicate IsSubsequence<T(==)>(a: seq<T>, b: seq<T>)
    decreases |b|
  {
    if a == [] then true
    else if b == [] then false
    else
      || (a[|a| - 1] == b[|b| - 1] && IsSubsequence(a[..|a| - 1], b[..|b| - 1]))
      || IsSubsequence(a, b[..|b| - 1])
  }

  /** The call table restricted to the range (`df_filtrado`). */
  function FilterCalls(rows: seq<CallRecord>, lo: Date, hi: Date): (r: seq<CallRecord>)
    ensures forall c :: c in r <==> c in rows && InRange(c, lo, hi)
  {
    if rows == [] then []
    else
      var init := rows[..|rows| - 1];
      var last := rows[|rows| - 1];
      var prev := FilterCalls(init, lo, hi);
      assert rows == init + [last];
      if InRange(last, lo, hi) then prev + [last] else prev
  }

  /** The expanded table restricted to the range (`df_expandido_filtrado`). */
  function FilterAttributed(rows: seq<AttributedRecord>, lo: Date, hi: Date): (r: seq<AttributedRecord>)
    ensures forall x :: x in r <==> x in rows && InRange(x.call, lo, hi)
  {
    if rows == [] then []
    else
      var init := rows[..|rows| - 1];
      var last := rows[|rows| - 1];
      var prev := FilterAttributed(init, lo, hi);
      assert rows == init + [last];
      if InRange(last.call, lo, hi) then prev + [last] else prev
  }

  /** The filtered call table keeps its rows in their original order. */
  lemma {:induction false} FilterCallsKeepsOrder(rows: seq<CallRecord>, lo: Date, hi: Date)
    ensures IsSubsequence(FilterCalls(rows, lo, hi), rows)
  {
    if rows != [] {
      var init := rows[..|rows| - 1];
      var last := rows[|rows| - 1];
      FilterCallsKeepsOrder(init, lo, hi);
      var prev := FilterCalls(init, lo, hi);
      if InRange(last, lo, hi) {
        assert (prev + [last])[..|prev + [last]| - 1] == prev;
      } else if prev != [] {
        assert FilterCalls(rows, lo, hi) == prev;
      }
    }
  }

  /** The filtered expanded table keeps its rows in their original order. */
  lemma {:induction false} FilterAttributedKeepsOrder(rows: seq<AttributedRecord>, lo: Date, hi: Date)
    ensures IsSubsequence(FilterAttributed(rows, lo, hi), rows)
  {
    if rows != [] {
      var init := rows[..|rows| - 1];
      var last := rows[|rows| - 1];
      FilterAttributedKeepsOrder(init, lo, hi);
      var prev := FilterAttributed(init, lo, hi);
      if InRange(last.call, lo, hi) {
        assert (prev + [last])[..|prev + [last]| - 1] == prev;
      } else if prev != [] {
        assert FilterAttributed(rows, lo, hi) == prev;
      }
    }
  }

  /** Filtering the call table goes row by row: it distributes over concatenation. */
  lemma {:induction false} FilterCallsAppend(a: seq<CallRecord>, b: seq<CallRecord>, lo: Date, hi: Date)
    ensures FilterCalls(a + b, lo, hi) == FilterCalls(a, lo, hi) + FilterCalls(b, lo, hi)
    decreases |b|
  {
    if b == [] {
      assert a + b == a;
    } else {
      var b' := b[..|b| - 1];
      assert (a + b)[..|a + b| - 1] == a + b';
      assert (a + b)[|a + b| - 1] == b[|b| - 1];
      FilterCallsAppend(a, b', lo, hi);
    }
  }

  /** A single call is kept exactly when its date is in range. */
  lemma FilterCallsOne(c: CallRecord, lo: Date, hi: Date)
    ensures FilterCalls([c], lo, hi) == if InRange(c, lo, hi) then [c] else []
  {
    assert [c][..0] == [];
  }

  /** Filtering goes row by row: it distributes over concatenation. */
  lemma {:induction false} FilterAttributedAppend(a: seq<AttributedRecord>, b: seq<AttributedRecord>, lo: Date, hi: Date)
    ensures FilterAttributed(a + b, lo, hi) == FilterAttributed(a, lo, hi) + FilterAttributed(b, lo, hi)
    decreases |b|
  {
    if b == [] {
      assert a + b == a;
    } else {
      var b' := b[..|b| - 1];
      assert (a + b)[..|a + b| - 1] == a + b';
      assert (a + b)[|a + b| - 1] == b[|b| - 1];
      FilterAttributedAppend(a, b', lo, hi);
    }
  }

  /** Filtering a second time with the same range changes nothing. */
  lemma {:induction false} FilterAttributedIdempotent(rows: seq<AttributedRecord>, lo: Date, hi: Date)
    ensures FilterAttributed(FilterAttributed(rows, lo, hi), lo, hi) == FilterAttributed(rows, lo, hi)
  {
    if rows != [] {
      var init := rows[..|rows| - 1];
      var last := rows[|rows| - 1];
      FilterAttributedIdempotent(init, lo, hi);
      if InRange(last.call, lo, hi) {
        var prev := FilterAttributed(init, lo, hi);
        assert (prev + [last])[..|prev + [last]| - 1] == prev;
      }
    }
  }

  /** The rows one call yields are all in range or all out of it. */
  lemma FilterEmit(c: CallRecord, lo: Date, hi: Date)
    ensures FilterAttributed(Emit(c), lo, hi) == if InRange(c, lo, hi) then Emit(c) else []
  {
    var e := Emit(c);
    if InRange(c, lo, hi) {
      FilterAllIn(e, lo, hi);
    } else {
      FilterNoneIn(e, lo, hi);
    }
  }

  /** A table whose rows are all in range passes through the filter unchanged. */
  lemma {:induction false} FilterAllIn(rows: seq<AttributedRecord>, lo: Date, hi: Date)
    requires forall k :: 0 <= k < |rows| ==> InRange(rows[k].call, lo, hi)
    ensures FilterAttributed(rows, lo, hi) == rows
  {
    if rows != [] {
      var init := rows[..|rows| - 1];
      assert forall k :: 0 <= k < |init| ==> init[k] == rows[k];
      FilterAllIn(init, lo, hi);
      assert rows == init + [rows[|rows| - 1]];
    }
  }

  /** A table with no row in range filters to nothing. */
  lemma {:induction false} FilterNoneIn(rows: seq<AttributedRecord>, lo: Date, hi: Date)
    requires forall k :: 0 <= k < |rows| ==> !InRange(rows[k].call, lo, hi)
    ensures FilterAttributed(rows, lo, hi) == []
  {
    if rows != [] {
      var init := rows[..|rows| - 1];
      assert forall k :: 0 <= k < |init| ==> init[k] == rows[k];
      FilterNoneIn(init, lo, hi);
      assert rows == init + [rows[|rows| - 1]];
    }
  }

  /**
   * Filtering the expanded table gives what expanding the filtered call table
   * gives: every attributed row keeps its call's date.
   */
  lemma {:induction false} FilterCommutesWithAttribute(df: seq<CallRecord>, lo: Date, hi: Date)
    ensures FilterAttributed(Attribute(df), lo, hi) == Attribute(FilterCalls(df, lo, hi))
  {
    if df != [] {
      var init := df[..|df| - 1];
      var last := df[|df| - 1];
      FilterCommutesWithAttribute(init, lo, hi);
      FilterAttributedAppend(Attribute(init), Emit(last), lo, hi);
      FilterEmit(last, lo, hi);
      if InRange(last, lo, hi) {
        var p := FilterCalls(init, lo, hi);
        assert (p + [last])[..|p + [last]| - 1] == p;
      }
    }
  }
}
