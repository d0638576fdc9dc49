# Call-analysis dashboard: a Dafny model

The repository holds a single Streamlit script, `code.py`. It reads a call-centre export (one row per call with agent name, call start and end time, and talk time) and produces:

- a per-agent summary;
- a bar chart of calls by weekday;
- an hour by weekday heatmap;
- a CSV download.

The heart of the script is attribution. A **missed call** has a talk time of exactly zero. When it falls in an hour covered by the duty roster, it is credited to **every agent on duty**. Any other call is credited to the agent it names, and a call with no agent name is dropped.

The model follows the script's stages, one module per stage:

| module | file | stage |
|---|---|---|
| `Normalization` | `normalize.dfy` | alias names → full names, timestamp parsing, drop unparsed starts, duration, date/hour/weekday columns, Spanish weekday labels, missed flag (code.py:14-42) |
| `Roster` | `roster.dfy` | `agentes_por_horario`, the duty roster by hour (code.py:45-57) |
| `Attribution` | `attribution.dfy` | building `filas` and `df_expandido` (code.py:59-75), as a function `Attribute` and as the loop `ExpandRows` |
| `DateFilter` | `datefilter.dfy` | the inclusive date-range filter on both tables (code.py:84-85) |
| `Counting` | `counting.dfy` | row counts, the building block of every aggregate |
| `Summary` | `summary.dfy` | `resumen`, the per-agent summary and its missed percentage (code.py:89-95) |
| `Views` | `views.dfy` | the weekday counts of the bar chart (code.py:101) and the heatmap pivot (code.py:108-109) |
| `Dashboard` | `dashboard.dfy` | the whole pipeline, and the script as written, with its two failure modes |

How values are represented:

- Dates are ordinal day numbers.
- A parsed timestamp carries its date, hour and weekday.
- A cell that failed to parse is `None`.
- Talk time and duration are integer seconds.

Two places where the script stops with a pandas `KeyError` are recorded under "## Findings". The model has both the as-written behaviour and the evidently intended one (`Dashboard.Analyze`).

`pivot_table(..., fill_value=0)` reads as if every missing hour/weekday combination were filled with zero. However, `fill_value` does not create a column for a weekday that has no row at all. The code then selects the six weekday columns by name, so the selection fails in that case. The model follows the code: `Views.HeatmapAsWritten` fails there, and `Views.Heatmap` is the zero-filled table that was intended.

## Model

| member | source | states |
|---|---|---|
| Normalization.CanonicalName | code.py:15-20 | A short name ("Jorge", "Maria", "Jonathan") becomes its full name. Every other value, null included, is unchanged. A null stays null. No result is itself a short name. |
| Normalization.AliasMapValues | code.py:15-19 | The alias map's values are exactly the three full names, and none of them is a key. |
| Normalization.CanonicalNameIdempotent | code.py:20 | Replacing twice gives the same result as replacing once. |
| Normalization.TranslateDay | code.py:35-39 | `map` with the translation table: a known English day name gives `Some` label from the table; an unknown one gives null. |
| Normalization.TranslateDayName | code.py:34-39 | The English name of every weekday translates to that weekday's Spanish label (so `DíaSemana` is never null). |
| Normalization.DayLabel | code.py:35-38 | The label is "Domingo" exactly for Sunday. |
| Normalization.DayLabelInjective | code.py:35-38 | Different weekdays get different labels. |
| Normalization.NormalizeRow | code.py:20-42 | A row with a parsed start keeps its parsed columns and gets the derived ones: duration is talk time or 0, date, hour, English name, Spanish label, missed = talk time is zero. |
| Normalization.MissedFlag | code.py:27-42 | A call is missed exactly when talk time parsed to 0. An unparsable talk time gives duration 0 and is not missed. A missed call has duration 0. |
| Normalization.Normalize | code.py:23-25 | The table has one row fewer for each raw row with an unparsed start time, and every remaining row carries correctly derived columns (order and multiplicity: `NormalizeAppend`, `NormalizeOne`). |
| Normalization.NormalizeKeepsParsedRows | code.py:23-25 | Every row whose start parsed appears, normalised, in the table, and every table row comes from such a row. |
| Normalization.NormalizeOne | code.py:23-25 | A single raw row gives its normalised row when its start parsed, and nothing otherwise. |
| Normalization.NormalizeAppend | code.py:23-25 | Normalising a concatenation gives the concatenation of the normalised parts, so raw order and duplicates are kept. |
| Roster.DutyAgents | code.py:45-57 | The roster is non-empty exactly for hours 8 to 19. |
| Roster.DutyAgentsShifts | code.py:45-57 | At most three agents, all different, all full names. Jorge is on duty exactly in [8,16), Maria in [10,18), Jonathan in [12,20). |
| Roster.DutyAgentsOrder | code.py:45-57 | Agents are listed by shift order, except in [16,18), where the list is Jonathan, Maria. |
| Roster.DutyAgentsSize | code.py:45-57 | The roster size equals the number of shifts covering the hour. |
| Attribution.Emit | code.py:61-72 | Every row yielded for a call is a copy of that call. |
| Attribution.MissedFanOut | code.py:62-66 | A missed call in a duty hour yields one row per agent on duty, in roster order, with no agent repeated. The call's own agent name plays no part. |
| Attribution.SingleAttribution | code.py:67-72 | Any other call yields at most one row. It yields exactly one iff it has an agent name, and that row credits the name. |
| Attribution.EmissionCount | code.py:61-72 | A call yields at most three rows. |
| Attribution.FlatMapAppend | code.py:60-72 | Joining per-call results distributes over concatenation of the call table. |
| Attribution.AttributeAppend | code.py:60-72 | Expanding a concatenation of tables gives the concatenation of their expansions. |
| Attribution.AttributeProvenance | code.py:60-72 | Every expanded row copies a call of the table. It credits either the call's own agent (when the call is not missed in a duty hour) or an agent on duty at the hour of the missed call. |
| Attribution.AttributeLength | code.py:60-72 | The expanded table has as many rows as the per-call counts add up to, and at most three per call. |
| Attribution.AttributeEmpty | code.py:60-72 | The expanded table is empty exactly when no call yields a row, i.e. every call is unnamed and not a missed call in a duty hour. |
| Attribution.ExpandedFrameFails | code.py:60-75 | The frame built from a table's expansion fails with the KeyError exactly when no call of the table yields a row. |
| Attribution.ExpandedFrameAsWritten | code.py:74-75 | Building the frame from `filas` fails with `KeyError(["AgenteFinal"])` exactly when `filas` is empty. Otherwise the null filter keeps every row. Which call tables make `filas` empty: `AttributeEmpty`, `ExpandedFrameFails`. |
| Attribution.ExpandRows | code.py:60-72 | The loop that appends to `filas` computes exactly the expanded table `Attribute(df)`. |
| DateFilter.FilterCalls | code.py:84 | A call is in `df_filtrado` iff it is in the table and its date lies in the inclusive range. |
| DateFilter.FilterAttributed | code.py:85 | A row is in `df_expandido_filtrado` iff it is in the expanded table and its call's date lies in the inclusive range. |
| DateFilter.FilterCallsKeepsOrder | code.py:84 | The filtered call table is a subsequence of the table, in the same order. |
| DateFilter.FilterCallsAppend | code.py:84 | Filtering the call table distributes over concatenation, so order and duplicates are kept. |
| DateFilter.FilterCallsOne | code.py:84 | A single call is kept exactly when its date is in range. |
| DateFilter.FilterAttributedKeepsOrder | code.py:85 | The filtered expanded table is a subsequence of the expanded table. |
| DateFilter.FilterAttributedAppend | code.py:85 | Filtering distributes over concatenation. |
| DateFilter.FilterAttributedIdempotent | code.py:85 | Filtering twice with the same range gives the same result as filtering once. |
| DateFilter.FilterEmit | code.py:85 | The rows of one call are all kept or all dropped. |
| DateFilter.FilterAllIn | code.py:85 | A table entirely in range passes through unchanged. |
| DateFilter.FilterNoneIn | code.py:85 | A table with no row in range filters to nothing. |
| DateFilter.FilterCommutesWithAttribute | code.py:60-85 | Filtering the expanded table gives the expansion of the filtered call table. |
| Counting.Count | code.py:89-91 | A count never exceeds the number of rows. |
| Counting.CountSingle | code.py:89-91 | A single row counts one if it matches, zero otherwise. |
| Counting.CountPositive | code.py:89-91 | A count is positive exactly when some row matches. |
| Counting.CountMonotone | code.py:90-91 | A weaker criterion counts at least as many rows. |
| Counting.CountSplit | code.py:108 | A criterion that is the disjoint union of two others counts their sum. |
| Counting.CountSame | code.py:101-108 | Criteria that agree on every row count the same. |
| Summary.Find | code.py:89 | The group found for an agent is that agent's, and a group exists iff the agent has one in the table. |
| Summary.AddRow | code.py:89-92 | Counting one row adds its agent to the agents, keeps agents distinct and adds one to the totals. The row's agent's group is tallied and every other group is unchanged. |
| Summary.Summarize | code.py:89-94 | No agent has two groups, and the group totals add up to the number of rows. |
| Summary.NoRowsOfAgent | code.py:90-92 | An agent with no rows has no missed rows and no talk time. |
| Summary.ExpectedGroupStep | code.py:89-92 | One more row changes only the expected group of its own agent, by one tally. |
| Summary.SummarizeFind | code.py:89-92 | Each agent's group is exactly its row count, missed count and total talk time counted directly from the rows, or absent when it has no rows. |
| Summary.SummaryGroup | code.py:89-92 | Every group counts its agent's rows (at least one), the missed ones (no more than the total) and their talk time. |
| Summary.SummaryAgents | code.py:89 | An agent has a group iff some row credits it. |
| Summary.PercentMissed | code.py:95 | "% Perdidas" times the total is 100 times the missed count, and it lies in [0, 100]. |
| Views.DisplayOrderLabels | code.py:101-109 | The six listed labels are the translations of Monday to Saturday. "Domingo" is not among them. |
| Views.WeekdayCounts | code.py:101 | Six bars, labelled Monday to Saturday in order, none for Sunday, none counting more than the rows. |
| Views.OneDayLabel | code.py:35-39 | A row with derived columns carries exactly one of the seven weekday labels. |
| Views.DaysPartitionRows | code.py:101 | Every row falls on exactly one weekday: the six shown ones or Sunday. |
| Views.WeekdayCountsShown | code.py:101 | The six bars add up to the rows on Monday to Saturday. |
| Views.WeekdayCountsTotal | code.py:101 | The bars plus Sunday's rows account for every row. |
| Views.Cells | code.py:108 | Six cells per hour, cell j counting the rows at that hour on weekday j. |
| Views.HeatFrom | code.py:108 | The lines from hour h on have hours ≥ h, in strictly increasing order, each with its counted cells. |
| Views.HeatFromHours | code.py:108 | From hour h on, there is a line for hour g iff h ≤ g < 24 and some row falls in hour g. |
| Views.HeatFromSkip | code.py:108 | Hours without rows contribute no line. |
| Views.Heatmap | code.py:108 | The lines are in increasing hour order, with every cell holding its count (0 for a missing combination). |
| Views.HeatmapHours | code.py:108 | There is a line for an hour iff some row falls in that hour. |
| Views.HeatmapOfNoRows | code.py:108 | No rows give no lines. |
| Views.HeatmapOfOneRow | code.py:108 | One row gives one line, for its own hour. |
| Views.HeatFromColumn | code.py:108 | Column j of the lines from hour h on adds up weekday j's rows from hour h on. |
| Views.HeatmapColumns | code.py:101-109 | Each heatmap column adds up to the bar of the same weekday. |
| Views.MissingDays | code.py:109 | A label is reported missing iff it is listed and no row carries it. |
| Views.HeatmapAsWritten | code.py:108-109 | The column selection fails with a KeyError naming exactly the listed weekdays that have no row. Otherwise it gives the heatmap. |
| Views.HeatmapAsWrittenFails | code.py:108-109 | The selection fails exactly when one of the six bars is zero. |
| Dashboard.ViewsOf | code.py:85-127 | The summary totals add up to the number of downloaded rows, and the download is the filtered expanded table. |
| Dashboard.Analyze | code.py:14-127 | A row is downloaded iff it is an expanded row in range, and the summary totals add up to the download. |
| Dashboard.ExportFromParsedRows | code.py:23-127 | Every downloaded row carries correctly derived columns and comes from a raw row whose start time parsed. |
| Dashboard.AnalyzeConsistent | code.py:84-109 | The bars plus Sunday's rows count the download, each heatmap column sums to its bar, and the download is the expansion of the filtered call table. |
| Dashboard.ViewsAsWritten | code.py:74-109 | When the script gets through, it shows the intended views. |
| Dashboard.ViewsAsWrittenFails | code.py:74-109 | The script stops exactly when nothing was attributed or a listed weekday has no row in range. |
| Dashboard.AnalyzeAsWritten | code.py:14-109 | When the script as written gets through, it shows exactly what `Analyze` shows. |
| Dashboard.AnalyzeAsWrittenFails | code.py:14-109 | The script as written stops exactly when no normalised call yields a row (each is unnamed and not a missed call in a duty hour) or a listed weekday has no row in the range. |
| Dashboard.NoAttributedRowStopsScript | code.py:67-75 | One answered 21:00 call without an agent name makes the script fail with `KeyError(["AgenteFinal"])`. The intended download, summary and heatmap are empty. |
| Dashboard.MondayOnlyStopsHeatmap | code.py:108-109 | One answered Monday 9:00 call by "Jorge" makes the script fail with a KeyError for "Martes" to "Sábado". The intended heatmap is one line, hour 9, with 1 under Monday. |
| Dashboard.MondayCallHeatmap | code.py:108 | The heatmap of a single Monday 9:00 row is one line, hour 9, with 1 under Monday and 0 elsewhere. |
| Dashboard.MondayCallByJorge | code.py:14-72 | That call expands to a single row credited to Jorge's full name, at hour 9, labelled "Lunes". |
| Dashboard.MondayCallMissingDays | code.py:109 | With only a Monday row, the missing labels are "Martes" to "Sábado". |
| Dashboard.MissedAtNine | code.py:42-66 | A call missed at 9:00 is credited once, to Jorge, whatever agent it named. |
| Dashboard.MissedAtTwentyOne | code.py:56-69 | A call missed at 21:00 is credited to the agent it names. |
| Dashboard.RunAnalysis | code.py:14-109 | Running the steps in order, with the attribution loop, gives exactly `Analyze`. |

## Left out

- Reading `AppInfo.xlsx` is left out (file I/O). A raw row arrives with its cells already parsed.
- pandas' `to_datetime` and `to_timedelta` parsers are left out. A cell that fails to parse is `None`, and talk time is whole seconds.
- The weekday is a field of the parsed timestamp. It is not computed from the date: calendar arithmetic is outside this model.
- "Duración (min)" is a float (seconds / 60) in the script. The model keeps durations as integer seconds.
- "Duración_Promedio_Min", the mean duration, is left out because it is floating-point division. The total is kept.
- Summary.Summarize: groups are kept in order of each agent's first row. `groupby` sorts the group keys, and that ordering of display rows is not modelled.
- The call table restricted to the range, `df_filtrado` (code.py:84), is modelled by `DateFilter.FilterCalls`. The script never uses it afterwards.
- The default range is the table's minimum and maximum date (code.py:81-82), and the date picker is interactive. The range is a parameter instead.
- The missed-call alert (code.py:116-123) is left out. It compares daily sums with mean + 1.5 × standard deviation in floating point.
- The page layout, titles, plots, the styling of numbers and the CSV encoding and download button (code.py:6-8, 77-78, 96, 102-104, 110-113, 127-128) are left out. They are presentation and I/O. The downloaded rows are `Report.download`.
- Dashboard.ViewsAsWritten: when the heatmap's column selection fails (code.py:109), the page has already shown the summary table (code.py:96) and the bar chart (code.py:104). The model returns only the `Failure` and does not record what was shown before it.
- "Call End Time" is parsed and carried along but never used by the script, so the model only carries it.

## Findings

| source | as written | input that shows it | evidently intended | confidence | as-written member | corrected member |
|---|---|---|---|---|---|---|
| code.py:74-75 | `pd.DataFrame(filas)` with `filas` empty has no "AgenteFinal" column, so `df_expandido["AgenteFinal"]` raises KeyError | a single answered call at 21:00 with no agent name | an empty expanded table, so the summary, charts and download are empty | not executed | Dashboard.NoAttributedRowStopsScript | Dashboard.Analyze |
| code.py:108-109 | `pivot_table` creates columns only for weekdays present in the range, so `pivot[[six labels]]` raises KeyError when a weekday has no call | a single answered call on a Monday at 9:00 by "Jorge" | every listed weekday column is present, with 0 where there are no calls | not executed | Dashboard.MondayOnlyStopsHeatmap | Views.Heatmap |
