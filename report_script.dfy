/** The current script, report.py: filter, then clean, then aggregate the
    table into one row per period (no total row), then name the sheet after
    the first and the last row of the report. */
module ReportScript {
  import opened Text
  import opened Records
  import opened Filters
  import opened Cleaning
  import opened Aggregation
  import opened Naming

  /** The first and the last label of a non-empty report have the words the
      abbreviated name needs, whenever the full name is too long. */
  predicate Nameable(report: seq<ReportRow>) {
    report != [] ==>
      var first, last := report[0].periodLabel, report[|report| - 1].periodLabel;
      |FullName(first, last)| > MaxSheetNameLength ==> Abbreviable(first, last)
  }

  /** `get_sheet_name_from_data` of report.py: the default name for an empty
      report, otherwise the name built from row 0 and the last row. */
  function SheetName(report: seq<ReportRow>): string
    requires Nameable(report)
  {
    if |report| == 0 then DefaultSheetName
    else NameFor(report[0].periodLabel, report[|report| - 1].periodLabel)
  }

  /** The sheet of a report computed from a non-empty cleaned table is named
      after its earliest and its latest period, and the name fits the limit. */
  lemma SheetNameOfReport(rows: seq<CleanRow>, names: MonthNames)
    requires SingleWordNames(names)
    requires rows != []
    ensures Nameable(Report(rows, names))
    ensures var ks := ReportKeys(rows);
      && ks != []
      && (forall p :: p in ks ==> !Before(p, ks[0]) && !Before(ks[|ks| - 1], p))
      && SheetName(Report(rows, names)) == PeriodsName(ks[0], ks[|ks| - 1], names)
      && |SheetName(Report(rows, names))| <= MaxSheetNameLength
  {
    var ks := ReportKeys(rows);
    var report := Report(rows, names);
    ReportNonEmpty(rows, names);
    RowsForAt(rows, ks, names);
    ReportPeriods(rows, ks[0]);
    assert report[0].periodLabel == Label(ks[0], names);
    assert report[|report| - 1].periodLabel == Label(ks[|ks| - 1], names);
    LabelWords(ks[0], names);
    LabelWords(ks[|ks| - 1], names);
    NameForPeriods(ks[0], ks[|ks| - 1], names);
    AscendingEnds(ks);
  }

  /** What `load_and_process_data` hands to the report: the filtered table
      cleaned (`None` when a required column is missing), and the filter
      statistics. */
  function Process(t: Table, cfg: FilterConfig): (Option<seq<CleanRow>>, FilterStats) {
    (Clean(Filtered(t, cfg)), Stats(t, cfg))
  }

  /** How a run ends: no usable data, or a report and the name of its sheet. */
  datatype Outcome = NoData | Done(report: seq<ReportRow>, sheetName: string)

  /** The result of a run of report.py on table `t`. */
  function Run(t: Table, cfg: FilterConfig, names: MonthNames): Outcome
    requires RequiredColumns <= t.columns ==> HasValidDate(Filtered(t, cfg).rows)
    requires SingleWordNames(names)
  {
    FilteredKeepsColumns(t, cfg);
    match Process(t, cfg).0
    case None => NoData
    case Some(rows) =>
      CleanRowsNonEmpty(Filtered(t, cfg).rows);
      SheetNameOfReport(rows, names);
      Done(Report(rows, names), SheetName(Report(rows, names)))
  }

  /** A run ends without data exactly when a required column is missing;
      otherwise its report is not empty and its sheet is named after the
      earliest and the latest period of the report, within the limit. */
  lemma RunOutcome(t: Table, cfg: FilterConfig, names: MonthNames)
    requires RequiredColumns <= t.columns ==> HasValidDate(Filtered(t, cfg).rows)
    requires SingleWordNames(names)
    ensures Run(t, cfg, names).NoData? <==> !(RequiredColumns <= t.columns)
    ensures Run(t, cfg, names).Done? ==>
      var rows := CleanRows(Filtered(t, cfg).rows);
      var ks := ReportKeys(rows);
      && Run(t, cfg, names).report == Report(rows, names)
      && Run(t, cfg, names).report != []
      && ks != []
      && Run(t, cfg, names).sheetName == PeriodsName(ks[0], ks[|ks| - 1], names)
      && |Run(t, cfg, names).sheetName| <= MaxSheetNameLength
  {
    FilteredKeepsColumns(t, cfg);
    if RequiredColumns <= t.columns {
      var rows := CleanRows(Filtered(t, cfg).rows);
      CleanRowsNonEmpty(Filtered(t, cfg).rows);
      SheetNameOfReport(rows, names);
    }
  }

  /** The pipeline of report.py from the concatenated table to the report and
      its sheet name: `apply_filters`, `validate_and_clean_data`,
      `calculate_report`, `get_sheet_name_from_data`. The "report is empty"
      exit is never taken (see `ReportNonEmpty`), so it is not a branch here. */
  method RunReport(t: Table, cfg: FilterConfig, names: MonthNames) returns (outcome: Outcome, stats: FilterStats)
    requires cfg.enableFiltering ==> |t.rows| > 0
    requires RequiredColumns <= t.columns ==> HasValidDate(Filtered(t, cfg).rows)
    requires SingleWordNames(names)
    ensures stats == Stats(t, cfg)
    ensures outcome == Run(t, cfg, names)
  {
    var filtered: Table;
    filtered, stats := ApplyFilters(t, cfg);
    FilteredKeepsColumns(t, cfg);
    var cleaned, _ := ValidateAndClean(filtered);
    if cleaned.None? {
      return NoData, stats;
    }
    var rows := cleaned.value;
    CleanRowsNonEmpty(filtered.rows);
    var report := CalculateReport(rows, names);
    SheetNameOfReport(rows, names);
    outcome := Done(report, SheetName(report));
  }

  /** With filtering switched off, or with both exclusion lists empty, the
      report is the report of the unfiltered table. */
  lemma UnfilteredReport(t: Table, cfg: FilterConfig)
    requires !cfg.enableFiltering || (cfg.excludeFuelMarks == [] && cfg.excludeAzs == [])
    ensures Process(t, cfg).0 == Clean(t)
    ensures Process(t, cfg).1.filteredRows == 0
  {
    DisabledOrEmptyListsChangeNothing(t, cfg);
  }
}
