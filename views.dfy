/**
 * The weekday count behind the bar chart (code.py:101) and the hour by
 * weekday count behind the heatmap (code.py:108-109). Both keep only the six
 * columns Monday to Saturday.
 */
module Views {
  import opened Wrappers
  import opened Normalization
  import opened Attribution
  import opened Counting

  /** The weekdays shown, in display order: Sunday is not among them. */
  const DisplayDays: seq<Weekday> := [Monday, Tuesday, Wednesday, Thursday, Friday, Saturday]

  /** Their labels, as the script lists them. */
  const DisplayOrder: seq<string> := ["Lunes", "Martes", "Miércoles", "Jueves", "Viernes", "Sábado"]

  /** The listed labels are the translations of Monday to Saturday; "Domingo" is not listed. */
  lemma DisplayOrderLabels()
    ensures |DisplayOrder| == |DisplayDays| == 6
    ensures forall j :: 0 <= j < 6 ==> DisplayOrder[j] == DayLabel(DisplayDays[j])
    ensures "Domingo" !in DisplayOrder
    ensures Sunday !in DisplayDays
  {
  }

  /** Every row of `rows` carries the derived columns of its call. */
  predicate AllDerived(rows: seq<AttributedRecord>)
  {
    forall k :: 0 <= k < |rows| ==> Derived(rows[k].call)
  }

  /** One bar of the weekday chart. */
  datatype DayBucket = DayBucket(day: string, count: nat)

  /** The bars: one per listed weekday, in display order, counting its rows. */
  function WeekdayCounts(rows: seq<AttributedRecord>): (r: seq<DayBucket>)
    ensures |r| == 6
    ensures forall j :: 0 <= j < 6 ==> r[j].day == DisplayOrder[j]
    ensures forall b :: b in r ==> b.day != "Domingo" && b.count <= |rows|
  {
    seq(6, j requires 0 <= j < 6 => DayBucket(DisplayOrder[j], Count(rows, ByDay(DisplayOrder[j]))))
  }

  /** Sum of the bars' counts. */
  function BucketSum(bs: seq<DayBucket>): nat
  {
    if bs == [] then 0 else bs[0].count + BucketSum(bs[1..])
  }

  /** Rows counted by the six bars, written out label by label. */
  function ShownDays(rows: seq<AttributedRecord>): nat
  {
    Count(rows, ByDay("Lunes")) + Count(rows, ByDay("Martes")) + Count(rows, ByDay("Miércoles"))
    + Count(rows, ByDay("Jueves")) + Count(rows, ByDay("Viernes")) + Count(rows, ByDay("Sábado"))
  }

  /** A row with derived columns carries exactly one of the seven labels. */
  lemma OneDayLabel(x: AttributedRecord)
    requires Derived(x.call)
    ensures ShownDays([x]) + Count([x], ByDay("Domingo")) == 1
  {
    assert [x][..0] == [];
  }

  /** Every row falls on exactly one weekday: the shown ones or Sunday. */
  lemma {:induction false} DaysPartitionRows(rows: seq<AttributedRecord>)
    requires AllDerived(rows)
    ensures ShownDays(rows) + Count(rows, ByDay("Domingo")) == |rows|
  {
    if rows != [] {
      var init := rows[..|rows| - 1];
      var last := rows[|rows| - 1];
      assert forall k :: 0 <= k < |init| ==> init[k] == rows[k];
      DaysPartitionRows(init);
      OneDayLabel(last);
      assert [last][..0] == [];
    }
  }

  /** The sum of six bars, written out. */
  lemma BucketSumSix(bs: seq<DayBucket>)
    requires |bs| == 6
    ensures BucketSum(bs) == bs[0].count + bs[1].count + bs[2].count + bs[3].count + bs[4].count + bs[5].count
  {
    assert bs[5..][1..] == [];
    assert BucketSum(bs[5..]) == bs[5].count;
    assert bs[4..][1..] == bs[5..];
    assert BucketSum(bs[4..]) == bs[4].count + BucketSum(bs[5..]);
    assert bs[3..][1..] == bs[4..];
    assert BucketSum(bs[3..]) == bs[3].count + BucketSum(bs[4..]);
    assert bs[2..][1..] == bs[3..];
    assert BucketSum(bs[2..]) == bs[2].count + BucketSum(bs[3..]);
    assert bs[1..][1..] == bs[2..];
    assert BucketSum(bs[1..]) == bs[1].count + BucketSum(bs[2..]);
  }

  /** The six bars add up to the rows on the six shown weekdays. */
  lemma WeekdayCountsShown(rows: seq<AttributedRecord>)
    ensures BucketSum(WeekdayCounts(rows)) == ShownDays(rows)
  {
    var w := WeekdayCounts(rows);
    BucketSumSix(w);
    assert w[0].count == Count(rows, ByDay("Lunes"));
    assert w[1].count == Count(rows, ByDay("Martes"));
    assert w[2].count == Count(rows, ByDay("Miércoles"));
    assert w[3].count == Count(rows, ByDay("Jueves"));
    assert w[4].count == Count(rows, ByDay("Viernes"));
    assert w[5].count == Count(rows, ByDay("Sábado"));
  }

  /**
   * The bars account for every row except those on Sunday, which no bar
   * shows.
   */
  lemma WeekdayCountsTotal(rows: seq<AttributedRecord>)
    requires AllDerived(rows)
    ensures BucketSum(WeekdayCounts(rows)) + Count(rows, ByDay("Domingo")) == |rows|
  {
    WeekdayCountsShown(rows);
    DaysPartitionRows(rows);
  }

  /** One line of the heatmap: an hour and its six weekday cells. */
  datatype HeatRow = HeatRow(hour: Hour, cells: seq<nat>)

  /** Some row falls in hour `h`. */
  predicate HasHour(rows: seq<AttributedRecord>, h: int)
  {
    exists k :: 0 <= k < |rows| && rows[k].call.hora == h
  }

  /** The cells of hour `h`, one per listed weekday. */
  function Cells(rows: seq<AttributedRecord>, h: Hour): (r: seq<nat>)
    ensures |r| == 6
    ensures forall j :: 0 <= j < 6 ==> r[j] == Count(rows, ByCell(h, DisplayOrder[j]))
  {
    seq(6, j requires 0 <= j < 6 => Count(rows, ByCell(h, DisplayOrder[j])))
  }

  /** The heatmap lines for hours `h` to 23 that occur in `rows`, in increasing hour order. */
  function HeatFrom(rows: seq<AttributedRecord>, h: int): (r: seq<HeatRow>)
    requires 0 <= h <= 24
    ensures forall i :: 0 <= i < |r| ==> h <= r[i].hour && r[i].cells == Cells(rows, r[i].hour)
    ensures forall i, j :: 0 <= i < j < |r| ==> r[i].hour < r[j].hour
    decreases 24 - h
  {
    if h == 24 then []
    else
      var rest := HeatFrom(rows, h + 1);
      if HasHour(rows, h) then [HeatRow(h, Cells(rows, h))] + rest else rest
  }

  /** Some line of `hm` is for hour `g`. */
  predicate HasLine(hm: seq<HeatRow>, g: int)
  {
    exists i :: 0 <= i < |hm| && hm[i].hour == g
  }

  /** A line in front adds its own hour to the hours with a line. */
  lemma HasLineCons(x: HeatRow, rest: seq<HeatRow>, g: int)
    ensures HasLine([x] + rest, g) <==> x.hour == g || HasLine(rest, g)
  {
    var r := [x] + rest;
    if HasLine(r, g) && x.hour != g {
      var i :| 0 <= i < |r| && r[i].hour == g;
      assert rest[i - 1].hour == g;
    }
    if HasLine(rest, g) {
      var i :| 0 <= i < |rest| && rest[i].hour == g;
      assert r[i + 1].hour == g;
    }
    if x.hour == g {
      assert r[0].hour == g;
    }
  }

  /** The lines from hour `h` on are those of the hours from `h` on that occur in `rows`. */
  lemma {:induction false} HeatFromHours(rows: seq<AttributedRecord>, h: int, g: int)
    requires 0 <= h <= 24
    ensures HasLine(HeatFrom(rows, h), g) <==> h <= g < 24 && HasHour(rows, g)
    decreases 24 - h
  {
    if h < 24 {
      HeatFromHours(rows, h + 1, g);
      var rest := HeatFrom(rows, h + 1);
      if HasHour(rows, h) {
        HasLineCons(HeatRow(h, Cells(rows, h)), rest, g);
      }
    }
  }

  /** Hours in [h, h2) that no row falls in contribute no line. */
  lemma {:induction false} HeatFromSkip(rows: seq<AttributedRecord>, h: int, h2: int)
    requires 0 <= h <= h2 <= 24
    requires forall g :: h <= g < h2 ==> !HasHour(rows, g)
    ensures HeatFrom(rows, h) == HeatFrom(rows, h2)
    decreases h2 - h
  {
    if h < h2 {
      HeatFromSkip(rows, h + 1, h2);
    }
  }

  /**
   * The heatmap (`pivot`): a line for each hour that occurs, in increasing
   * order, with zero for every missing combination.
   */
  function Heatmap(rows: seq<AttributedRecord>): (r: seq<HeatRow>)
    ensures forall i :: 0 <= i < |r| ==> r[i].cells == Cells(rows, r[i].hour)
    ensures forall i, j :: 0 <= i < j < |r| ==> r[i].hour < r[j].hour
  {
    HeatFrom(rows, 0)
  }

  /** The heatmap has a line for hour `g` exactly when some row falls in that hour. */
  lemma HeatmapHours(rows: seq<AttributedRecord>, g: int)
    ensures HasLine(Heatmap(rows), g) <==> HasHour(rows, g)
  {
    HeatFromHours(rows, 0, g);
    assert Heatmap(rows) == HeatFrom(rows, 0);
    if HasHour(rows, g) {
      var k :| 0 <= k < |rows| && rows[k].call.hora == g;
      assert 0 <= g < 24;
    }
  }

  /** No rows, no heatmap lines. */
  lemma HeatmapOfNoRows()
    ensures Heatmap([]) == []
  {
    HeatFromSkip([], 0, 24);
  }

  /** A single row gives a single line, for its own hour. */
  lemma HeatmapOfOneRow(x: AttributedRecord)
    ensures Heatmap([x]) == [HeatRow(x.call.hora, Cells([x], x.call.hora))]
  {
    var h: int := x.call.hora;
    HeatFromSkip([x], 0, h);
    HeatFromSkip([x], h + 1, 24);
    assert [x][0].call.hora == h;
  }

  /** The sum of column `j` of the heatmap. */
  function ColumnSum(hm: seq<HeatRow>, j: nat): nat
  {
    if hm == [] then 0
    else (if j < |hm[0].cells| then hm[0].cells[j] else 0) + ColumnSum(hm[1..], j)
  }

  /** Column `j` of the lines from hour `h` on adds up the day's rows from hour `h` on. */
  lemma {:induction false} HeatFromColumn(rows: seq<AttributedRecord>, h: int, j: nat)
    requires 0 <= h <= 24 && j < 6
    ensures ColumnSum(HeatFrom(rows, h), j) == Count(rows, ByDayFrom(DisplayOrder[j], h))
    decreases 24 - h
  {
    var l := DisplayOrder[j];
    if h == 24 {
      CountPositive(rows, ByDayFrom(l, h));
    } else {
      HeatFromColumn(rows, h + 1, j);
      var rest := HeatFrom(rows, h + 1);
      if HasHour(rows, h) {
        var r := [HeatRow(h, Cells(rows, h))] + rest;
        assert r[1..] == rest;
      } else {
        CountPositive(rows, ByCell(h, l));
      }
      CountSplit(rows, ByDayFrom(l, h), ByCell(h, l), ByDayFrom(l, h + 1));
    }
  }

  /** Each heatmap column adds up to the bar of the same weekday. */
  lemma HeatmapColumns(rows: seq<AttributedRecord>, j: nat)
    requires j < 6
    ensures ColumnSum(Heatmap(rows), j) == WeekdayCounts(rows)[j].count
  {
    HeatFromColumn(rows, 0, j);
    CountSame(rows, ByDayFrom(DisplayOrder[j], 0), ByDay(DisplayOrder[j]));
  }

  /** The labels among `days` that no row carries. */
  function MissingDays(rows: seq<AttributedRecord>, days: seq<string>): (r: seq<string>)
    ensures forall l :: l in r <==> l in days && Count(rows, ByDay(l)) == 0
  {
    if days == [] then []
    else
      var rest := MissingDays(rows, days[1..]);
      assert forall l :: l in days <==> l == days[0] || l in days[1..];
      if Count(rows, ByDay(days[0])) == 0 then [days[0]] + rest else rest
  }

  /**
   * The heatmap as the script computes it: `pivot_table` makes a column only
   * for the weekdays that occur, so selecting the six listed columns fails
   * with a KeyError when one of them has no row.
   */
  function HeatmapAsWritten(rows: seq<AttributedRecord>): (r: Result<seq<HeatRow>, ScriptError>)
    ensures r.Success? ==> r.value == Heatmap(rows)
    ensures r.Failure? ==> forall l :: l in r.error.keys <==> l in DisplayOrder && Count(rows, ByDay(l)) == 0
  {
    var missing := MissingDays(rows, DisplayOrder);
    if missing != [] then Failure(KeyError(missing)) else Success(Heatmap(rows))
  }

  /** The script's heatmap fails exactly when one of the six listed weekdays has no row. */
  lemma HeatmapAsWrittenFails(rows: seq<AttributedRecord>)
    ensures HeatmapAsWritten(rows).Failure? <==> exists j :: 0 <= j < 6 && WeekdayCounts(rows)[j].count == 0
  {
    var missing := MissingDays(rows, DisplayOrder);
    if missing != [] {
      assert missing[0] in DisplayOrder;
      var j :| 0 <= j < 6 && DisplayOrder[j] == missing[0];
      assert WeekdayCounts(rows)[j].count == 0;
    }
    if exists j :: 0 <= j < 6 && WeekdayCounts(rows)[j].count == 0 {
      var j :| 0 <= j < 6 && WeekdayCounts(rows)[j].count == 0;
      assert DisplayOrder[j] in DisplayOrder;
      assert DisplayOrder[j] in missing;
    }
  }
}
