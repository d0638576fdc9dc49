/**
 * Normalisation of the raw call export: canonical agent names, parsed
 * timestamps, talk time, the derived date/hour/weekday columns and the
 * missed-call flag (code.py:14-42).
 *
 * The spreadsheet reader and pandas' datetime and timedelta parsers are not
 * modelled: a raw row arrives with every cell already parsed, `None` standing
 * for a cell that failed to parse.
 */
module Normalization {
  import opened Wrappers

  /** A calendar date, as an ordinal day number (earlier dates are smaller). */
  type Date = int

  /** An hour of the day, as `Timestamp.hour` yields it. */
  type Hour = h: int | 0 <= h < 24

  datatype Weekday = Monday | Tuesday | Wednesday | Thursday | Friday | Saturday | Sunday

  /**
   * The parts of a parsed timestamp that the analysis uses. The weekday is an
   * input here rather than computed from the date.
   */
  datatype Timestamp = Timestamp(date: Date, hour: Hour, weekday: Weekday)

  /** One row of the export; talk time is in whole seconds. */
  datatype RawRow = RawRow(
    agentName: Option<string>,
    callStart: Option<Timestamp>,
    callEnd: Option<Timestamp>,
    talkTime: Option<int>)

  /** A row of the normalised table: the parsed columns plus the derived ones. */
  datatype CallRecord = CallRecord(
    agentName: Option<string>,
    callStart: Timestamp,
    callEnd: Option<Timestamp>,
    talkTime: Option<int>,
    durationSeconds: int,      // "Duración (min)", kept in seconds
    fecha: Date,               // "Fecha"
    hora: Hour,                // "Hora"
    dayNameEn: string,         // "DíaSemana_En"
    diaSemana: Option<string>, // "DíaSemana"
    missed: bool)              // "LlamadaPerdida"

  const JorgeFull: string := "Jorge Cesar Flores Rivera"
  const MariaFull: string := "Maria Teresa Loredo Morales"
  const JonathanFull: string := "Jonathan Alejandro Zúñiga"

  /** Short agent names and the full names they stand for. */
  const AliasMap: map<string, string> :=
    map["Jorge" := JorgeFull, "Maria" := MariaFull, "Jonathan" := JonathanFull]

  /** The full names the alias map produces. */
  const FullNames: set<string> := {JorgeFull, MariaFull, JonathanFull}

  /** The alias map's values are exactly the full names, and none of them is a short name. */
  lemma AliasMapValues()
    ensures AliasMap.Values == FullNames
    ensures forall n :: n in FullNames ==> n !in AliasMap
  {
    assert AliasMap["Jorge"] == JorgeFull;
    assert AliasMap["Maria"] == MariaFull;
    assert AliasMap["Jonathan"] == JonathanFull;
  }

  /**
   * `Series.replace` with the alias map: a cell equal to a short name becomes
   * the full name; anything else, null included, is left alone.
   */
  function CanonicalName(name: Option<string>): (r: Option<string>)
    ensures r.None? <==> name.None?
    ensures r.Some? ==> r.value !in AliasMap
    ensures name.Some? && name.value !in AliasMap ==> r == name
    ensures r != name ==> name.value in AliasMap && r == Some(AliasMap[name.value])
  {
    match name
    case Some(n) => if n in AliasMap then Some(AliasMap[n]) else name
    case None => None
  }

  /** Replacing twice is replacing once: no full name is itself a short name. */
  lemma CanonicalNameIdempotent(name: Option<string>)
    ensures CanonicalName(CanonicalName(name)) == CanonicalName(name)
  {
  }

  /** The English day name, as `dt.day_name()` gives it. */
  function EnglishDayName(w: Weekday): string
  {
    match w
    case Monday => "Monday"
    case Tuesday => "Tuesday"
    case Wednesday => "Wednesday"
    case Thursday => "Thursday"
    case Friday => "Friday"
    case Saturday => "Saturday"
    case Sunday => "Sunday"
  }

  /** English day names and their Spanish labels. */
  const DayTranslation: map<string, string> :=
    map["Monday" := "Lunes", "Tuesday" := "Martes", "Wednesday" := "Miércoles",
        "Thursday" := "Jueves", "Friday" := "Viernes", "Saturday" := "Sábado",
        "Sunday" := "Domingo"]

  /** `Series.map` with the translation dictionary: an unknown name gives null. */
  function TranslateDay(en: string): (r: Option<string>)
    ensures r.Some? <==> en in DayTranslation
    ensures r.Some? ==> r.value in DayTranslation.Values
  {
    if en in DayTranslation then Some(DayTranslation[en]) else None
  }

  /** The Spanish label shown for a weekday. */
  function DayLabel(w: Weekday): (r: string)
    ensures r == "Domingo" <==> w == Sunday
  {
    match w
    case Monday => "Lunes"
    case Tuesday => "Martes"
    case Wednesday => "Miércoles"
    case Thursday => "Jueves"
    case Friday => "Viernes"
    case Saturday => "Sábado"
    case Sunday => "Domingo"
  }

  /** The translation table gives every weekday's English name its Spanish label. */
  lemma TranslateDayName(w: Weekday)
    ensures TranslateDay(EnglishDayName(w)) == Some(DayLabel(w))
  {
  }

  /** Different weekdays get different labels. */
  lemma DayLabelInjective(w1: Weekday, w2: Weekday)
    requires DayLabel(w1) == DayLabel(w2)
    ensures w1 == w2
  {
  }

  /** The missed-call flag: parsed talk time equal to zero seconds. */
  predicate IsMissed(talkTime: Option<int>)
  {
    talkTime == Some(0)
  }

  /** The derived columns of `c` are the ones its parsed columns determine. */
  predicate Derived(c: CallRecord)
  {
    && (c.agentName.Some? ==> c.agentName.value !in AliasMap)
    && c.durationSeconds == c.talkTime.GetOr(0)
    && c.fecha == c.callStart.date
    && c.hora == c.callStart.hour
    && c.dayNameEn == EnglishDayName(c.callStart.weekday)
    && c.diaSemana == Some(DayLabel(c.callStart.weekday))
    && c.missed == IsMissed(c.talkTime)
  }

  /** Normalises one row whose start time parsed. */
  function NormalizeRow(row: RawRow): (c: CallRecord)
    requires row.callStart.Some?
    ensures Derived(c)
    ensures c.agentName == CanonicalName(row.agentName)
    ensures c.callStart == row.callStart.value
    ensures c.callEnd == row.callEnd && c.talkTime == row.talkTime
  {
    var ts := row.callStart.value;
    var en := EnglishDayName(ts.weekday);
    TranslateDayName(ts.weekday);
    CallRecord(
      CanonicalName(row.agentName), ts, row.callEnd, row.talkTime,
      row.talkTime.GetOr(0), ts.date, ts.hour, en, TranslateDay(en),
      row.talkTime == Some(0))
  }

  /**
   * The missed flag holds exactly when talk time parsed to zero. A talk time
   * that failed to parse gives duration zero but is not flagged missed.
   */
  lemma MissedFlag(row: RawRow)
    requires row.callStart.Some?
    ensures NormalizeRow(row).missed <==> row.talkTime == Some(0)
    ensures row.talkTime.None? ==> NormalizeRow(row).durationSeconds == 0 && !NormalizeRow(row).missed
    ensures NormalizeRow(row).missed ==> NormalizeRow(row).durationSeconds == 0
  {
  }

  /** Number of rows whose start time failed to parse. */
  function CountUnparsed(rows: seq<RawRow>): (n: nat)
    ensures n <= |rows|
  {
    if rows == [] then 0
    else CountUnparsed(rows[..|rows| - 1]) + (if rows[|rows| - 1].callStart.None? then 1 else 0)
  }

  /**
   * The normalised table: rows with an unparsed start dropped, the others
   * normalised, in their original order.
   */
  function Normalize(rows: seq<RawRow>): (r: seq<CallRecord>)
    ensures |r| == |rows| - CountUnparsed(rows)
    ensures forall c :: c in r ==> Derived(c)
  {
    if rows == [] then []
    else
      var last := rows[|rows| - 1];
      var rest := Normalize(rows[..|rows| - 1]);
      if last.callStart.Some? then rest + [NormalizeRow(last)] else rest
  }

  /**
   * Every row whose start time parsed reaches the normalised table, and
   * nothing else does.
   */
  lemma {:induction false} NormalizeKeepsParsedRows(rows: seq<RawRow>)
    ensures forall i :: 0 <= i < |rows| && rows[i].callStart.Some? ==> NormalizeRow(rows[i]) in Normalize(rows)
    ensures forall c :: c in Normalize(rows) ==>
      exists i :: 0 <= i < |rows| && rows[i].callStart.Some? && c == NormalizeRow(rows[i])
  {
    if rows != [] {
      var init := rows[..|rows| - 1];
      var last := rows[|rows| - 1];
      NormalizeKeepsParsedRows(init);
      assert forall i :: 0 <= i < |init| ==> init[i] == rows[i];
      assert Normalize(rows) == if last.callStart.Some? then Normalize(init) + [NormalizeRow(last)] else Normalize(init);
    }
  }

  /** A single raw row normalises to itself normalised, or to nothing when its start failed to parse. */
  lemma NormalizeOne(row: RawRow)
    ensures Normalize([row]) == if row.callStart.Some? then [NormalizeRow(row)] else []
  {
    assert [row][..0] == [];
  }

  /**
   * Normalisation goes row by row: it distributes over concatenation, so the
   * table keeps the raw rows' order and multiplicity.
   */
  lemma {:induction false} NormalizeAppend(a: seq<RawRow>, b: seq<RawRow>)
    ensures Normalize(a + b) == Normalize(a) + Normalize(b)
    decreases |b|
  {
    if b == [] {
      assert a + b == a;
    } else {
      var b' := b[..|b| - 1];
      assert (a + b)[..|a + b| - 1] == a + b';
      assert (a + b)[|a + b| - 1] == b[|b| - 1];
      NormalizeAppend(a, b');
    }
  }
}
