/**
 * The whole analysis, from the raw export to the tables the dashboard shows
 * and exports, as the script runs it and with its two crashes removed.
 */
module Dashboard {
  import opened Wrappers
  import opened Normalization
  import opened Roster
  import opened Attribution
  import opened DateFilter
  import opened Counting
  import opened Summary
  import opened Views

  /** The views handed to the page: summary, bars, heatmap and the rows offered for download. */
  datatype Report = Report(
    summary: seq<AgentSummary>,
    weekdays: seq<DayBucket>,
    heatmap: seq<HeatRow>,
    download: seq<AttributedRecord>)

  /** The views over a table of expanded, date-filtered rows. */
  function ViewsOf(filtered: seq<AttributedRecord>): (r: Report)
    ensures SumTotals(r.summary) == |r.download|
    ensures r.download == filtered
  {
    Report(Summarize(filtered), WeekdayCounts(filtered), Heatmap(filtered), filtered)
  }

  /** The views over the expanded rows dated from `lo` to `hi`. */
  function Analyze(raw: seq<RawRow>, lo: Date, hi: Date): (r: Report)
    ensures SumTotals(r.summary) == |r.download|
    ensures forall x :: x in r.download <==> x in Attribute(Normalize(raw)) && InRange(x.call, lo, hi)
  {
    ViewsOf(FilterAttributed(Attribute(Normalize(raw)), lo, hi))
  }

  /** Every downloaded row carries the derived columns of a raw row whose start time parsed. */
  lemma ExportFromParsedRows(raw: seq<RawRow>, lo: Date, hi: Date)
    ensures AllDerived(Analyze(raw, lo, hi).download)
    ensures forall x :: x in Analyze(raw, lo, hi).download ==>
      exists i :: 0 <= i < |raw| && raw[i].callStart.Some? && x.call == NormalizeRow(raw[i])
  {
    var download := Analyze(raw, lo, hi).download;
    AttributeProvenance(Normalize(raw));
    NormalizeKeepsParsedRows(raw);
    forall k | 0 <= k < |download|
      ensures Derived(download[k].call)
    {
      assert download[k] in download;
    }
  }

  /**
   * The views agree with one another: the bars count every downloaded row
   * except Sunday's, each heatmap column adds up to its bar, and the exported
   * rows are the expansion of the date-filtered call table.
   */
  lemma AnalyzeConsistent(raw: seq<RawRow>, lo: Date, hi: Date)
    ensures var r := Analyze(raw, lo, hi);
      && BucketSum(r.weekdays) + Count(r.download, ByDay("Domingo")) == |r.download|
      && (forall j :: 0 <= j < 6 ==> ColumnSum(r.heatmap, j) == r.weekdays[j].count)
      && r.download == Attribute(FilterCalls(Normalize(raw), lo, hi))
  {
    var r := Analyze(raw, lo, hi);
    ExportFromParsedRows(raw, lo, hi);
    WeekdayCountsTotal(r.download);
    forall j | 0 <= j < 6
      ensures ColumnSum(r.heatmap, j) == r.weekdays[j].count
    {
      HeatmapColumns(r.download, j);
    }
    FilterCommutesWithAttribute(Normalize(raw), lo, hi);
  }

  /**
   * The views as the script computes them from `filas`: it stops with a
   * KeyError when no row was attributed at all, or when one of the six
   * weekday columns has no row in the chosen range.
   */
  function ViewsAsWritten(filas: seq<AttributedRecord>, lo: Date, hi: Date): (r: Result<Report, ScriptError>)
    ensures r.Success? ==> r.value == ViewsOf(FilterAttributed(filas, lo, hi))
  {
    match ExpandedFrameAsWritten(filas)
    case Failure(e) => Failure(e)
    case Success(expanded) =>
      var filtered := FilterAttributed(expanded, lo, hi);
      match HeatmapAsWritten(filtered)
      case Failure(e) => Failure(e)
      case Success(hm) => Success(Report(Summarize(filtered), WeekdayCounts(filtered), hm, filtered))
  }

  /** The script fails exactly in the two cases above. */
  lemma ViewsAsWrittenFails(filas: seq<AttributedRecord>, lo: Date, hi: Date)
    ensures ViewsAsWritten(filas, lo, hi).Failure? <==>
      (filas == [] || exists j :: 0 <= j < 6 && WeekdayCounts(FilterAttributed(filas, lo, hi))[j].count == 0)
  {
    if filas != [] {
      var filtered := FilterAttributed(filas, lo, hi);
      assert ExpandedFrameAsWritten(filas) == Success(filas);
      assert ViewsAsWritten(filas, lo, hi).Failure? <==> HeatmapAsWritten(filtered).Failure?;
      HeatmapAsWrittenFails(filtered);
      if exists j :: 0 <= j < 6 && WeekdayCounts(filtered)[j].count == 0 {
        var j :| 0 <= j < 6 && WeekdayCounts(filtered)[j].count == 0;
        assert WeekdayCounts(FilterAttributed(filas, lo, hi))[j].count == 0;
        assert ViewsAsWritten(filas, lo, hi).Failure?;
      }
    } else {
      assert ExpandedFrameAsWritten(filas).Failure?;
    }
  }

  /** The whole script as written, from the raw export. */
  function AnalyzeAsWritten(raw: seq<RawRow>, lo: Date, hi: Date): (r: Result<Report, ScriptError>)
    ensures r.Success? ==> r.value == Analyze(raw, lo, hi)
  {
    ViewsAsWritten(Attribute(Normalize(raw)), lo, hi)
  }

  /**
   * The script fails exactly when no normalised call yields a row (every call
   * is answered but unnamed, or missed outside the duty hours and unnamed) or
   * a listed weekday has no row in range; otherwise it shows the intended views.
   */
  lemma AnalyzeAsWrittenFails(raw: seq<RawRow>, lo: Date, hi: Date)
    ensures AnalyzeAsWritten(raw, lo, hi).Failure? <==>
      (NothingAttributed(Normalize(raw)) || exists j :: 0 <= j < 6 && Analyze(raw, lo, hi).weekdays[j].count == 0)
  {
    var filas := Attribute(Normalize(raw));
    AttributeEmpty(Normalize(raw));
    var w := WeekdayCounts(FilterAttributed(filas, lo, hi));
    ViewsAsWrittenFails(filas, lo, hi);
    assert AnalyzeAsWritten(raw, lo, hi) == ViewsAsWritten(filas, lo, hi);
    assert Analyze(raw, lo, hi).weekdays == w;
  }

  /** A timestamp on Monday 738000 (an ordinal date) at the given hour. */
  function MondayAt(h: Hour): Timestamp
  {
    Timestamp(738000, h, Monday)
  }

  /**
   * A single answered call at 21:00 without an agent name: nothing is
   * attributed and the script stops at the "AgenteFinal" filter, where the
   * intended views are simply empty.
   */
  lemma NoAttributedRowStopsScript()
    ensures var raw := [RawRow(None, Some(MondayAt(21)), None, Some(45))];
      && AnalyzeAsWritten(raw, 738000, 738000) == Failure(KeyError(["AgenteFinal"]))
      && Analyze(raw, 738000, 738000).download == []
      && Analyze(raw, 738000, 738000).summary == []
      && Analyze(raw, 738000, 738000).heatmap == []
  {
    var raw := [RawRow(None, Some(MondayAt(21)), None, Some(45))];
    var c := NormalizeRow(raw[0]);
    assert raw[..0] == [];
    assert Normalize(raw) == [c];
    assert Emit(c) == [];
    assert [c][..0] == [];
    assert Attribute([c]) == [];
    HeatmapOfNoRows();
  }

  /**
   * A single answered call on a Monday at 9:00 by "Jorge": the heatmap has a
   * Monday column only, so the script stops selecting "Martes" to "Sábado";
   * the intended heatmap has one line, for hour 9, with the call under Monday.
   */
  lemma MondayOnlyStopsHeatmap()
    ensures var raw := [RawRow(Some("Jorge"), Some(MondayAt(9)), None, Some(120))];
      && AnalyzeAsWritten(raw, 738000, 738000).Failure?
      && AnalyzeAsWritten(raw, 738000, 738000).error.keys == ["Martes", "Miércoles", "Jueves", "Viernes", "Sábado"]
      && Analyze(raw, 738000, 738000).heatmap == [HeatRow(9, [1, 0, 0, 0, 0, 0])]
  {
    var raw := [RawRow(Some("Jorge"), Some(MondayAt(9)), None, Some(120))];
    var x := MondayCallByJorge();
    assert FilterAttributed([x], 738000, 738000) == [x] by {
      assert [x][..0] == [];
    }
    MondayCallMissingDays(x);
    MondayCallHeatmap(x);
    assert Analyze(raw, 738000, 738000).heatmap == Heatmap([x]);
  }

  /** The heatmap of the single Monday 9:00 row: one line, with the call under Monday. */
  lemma MondayCallHeatmap(x: AttributedRecord)
    requires x.call.hora == 9 && x.call.diaSemana == Some("Lunes")
    ensures Heatmap([x]) == [HeatRow(9, [1, 0, 0, 0, 0, 0])]
  {
    HeatmapOfOneRow(x);
    forall j | 0 <= j < 6 ensures Cells([x], 9)[j] == if j == 0 then 1 else 0 {
      CountSingle(x, ByCell(9, DisplayOrder[j]));
    }
    assert Cells([x], 9) == [1, 0, 0, 0, 0, 0];
  }

  /** The expansion of the single Monday call by "Jorge". */
  lemma MondayCallByJorge() returns (x: AttributedRecord)
    ensures var raw := [RawRow(Some("Jorge"), Some(MondayAt(9)), None, Some(120))];
      && Attribute(Normalize(raw)) == [x]
      && x.call.fecha == 738000 && x.call.hora == 9 && x.call.diaSemana == Some("Lunes")
  {
    var raw := [RawRow(Some("Jorge"), Some(MondayAt(9)), None, Some(120))];
    var c := NormalizeRow(raw[0]);
    assert c.agentName == Some(JorgeFull);
    assert raw[..0] == [];
    assert Normalize(raw) == [c];
    x := AttributedRecord(c, JorgeFull);
    assert Emit(c) == [x];
    assert [c][..0] == [];
  }

  /** A row on Monday leaves the listed weekdays from position `k` on all missing. */
  lemma {:induction false} MissingAfterMonday(x: AttributedRecord, k: nat)
    requires x.call.diaSemana == Some("Lunes")
    requires 1 <= k <= 6
    ensures MissingDays([x], DisplayOrder[k..]) == DisplayOrder[k..]
    decreases 6 - k
  {
    if k < 6 {
      MissingAfterMonday(x, k + 1);
      CountSingle(x, ByDay(DisplayOrder[k]));
      assert DisplayOrder[k..][1..] == DisplayOrder[k + 1..];
    }
  }

  /** A row on Monday leaves the other five listed weekdays missing. */
  lemma MondayCallMissingDays(x: AttributedRecord)
    requires x.call.diaSemana == Some("Lunes")
    ensures MissingDays([x], DisplayOrder) == ["Martes", "Miércoles", "Jueves", "Viernes", "Sábado"]
  {
    MissingAfterMonday(x, 1);
    CountSingle(x, ByDay("Lunes"));
    assert DisplayOrder[1..] == ["Martes", "Miércoles", "Jueves", "Viernes", "Sábado"];
  }

  /** A call missed at 9:00 is credited once, to Jorge, whatever agent it named. */
  lemma MissedAtNine(name: Option<string>)
    ensures var c := NormalizeRow(RawRow(name, Some(MondayAt(9)), None, Some(0)));
      Attribute(Normalize([RawRow(name, Some(MondayAt(9)), None, Some(0))])) == [AttributedRecord(c, JorgeFull)]
  {
    var row := RawRow(name, Some(MondayAt(9)), None, Some(0));
    var c := NormalizeRow(row);
    assert [row][..0] == [];
    assert Normalize([row]) == [c];
    assert [c][..0] == [];
    assert Attribute([c]) == Emit(c);
    assert c.missed && c.hora == 9;
    assert DutyAgents(c.hora) == [JorgeFull];
    assert Emit(c)[0] == AttributedRecord(c, JorgeFull);
  }

  /** A call missed at 21:00, outside every duty window, is credited to the agent it names. */
  lemma MissedAtTwentyOne()
    ensures var row := RawRow(Some(MariaFull), Some(MondayAt(21)), None, Some(0));
      Attribute(Normalize([row])) == [AttributedRecord(NormalizeRow(row), MariaFull)]
  {
    var row := RawRow(Some(MariaFull), Some(MondayAt(21)), None, Some(0));
    var c := NormalizeRow(row);
    assert c.agentName == Some(MariaFull);
    assert [row][..0] == [];
    assert Normalize([row]) == [c];
    assert [c][..0] == [];
    assert Attribute([c]) == Emit(c);
  }

  /** The script's steps in order, with the attribution done by its loop. */
  method RunAnalysis(raw: seq<RawRow>, lo: Date, hi: Date) returns (report: Report)
    ensures report == Analyze(raw, lo, hi)
  {
    var df := Normalize(raw);
    var filas := ExpandRows(df);
    report := ViewsOf(FilterAttributed(filas, lo, hi));
  }
}
