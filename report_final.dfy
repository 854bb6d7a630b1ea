/** The older variant, old/report_final.py: the same cleaning and per-period
    aggregation, then an "ИТОГО" row with the column totals appended, and a
    sheet name that skips that total row. */
module ReportFinal {
  import opened Text
  import opened Records
  import opened Aggregation
  import opened Naming

  /** The label of the appended total row. */
  const TotalLabel: string := "ИТОГО"

  /** The total row: each amount column summed over the period rows, and the
      rate recomputed from the two summed columns it divides. */
  function TotalRow(periods: seq<ReportRow>): ReportRow {
    var accrued := ColumnSum(periods, AccruedCol);
    var withBonus := ColumnSum(periods, LitersWithBonusCol);
    ReportRow(TotalLabel, accrued, withBonus, ColumnSum(periods, LitersTotalCol),
              ColumnSum(periods, RedeemedCol), Rate(accrued, withBonus))
  }

  /** The report of the old variant: the period rows, then the total row. */
  function ReportWithTotal(rows: seq<CleanRow>, names: MonthNames): seq<ReportRow> {
    var periods := Report(rows, names);
    periods + [TotalRow(periods)]
  }

  /** `calculate_report` of old/report_final.py: the per-period report, then
      one pass over it summing the columns for the total row. */
  method CalculateReportWithTotal(rows: seq<CleanRow>, names: MonthNames) returns (report: seq<ReportRow>)
    ensures report == ReportWithTotal(rows, names)
  {
    var periods := CalculateReport(rows, names);
    var accrued, withBonus, total, redeemed := 0.0, 0.0, 0.0, 0.0;
    for i := 0 to |periods|
      invariant accrued == ColumnSum(periods[..i], AccruedCol)
      invariant withBonus == ColumnSum(periods[..i], LitersWithBonusCol)
      invariant total == ColumnSum(periods[..i], LitersTotalCol)
      invariant redeemed == ColumnSum(periods[..i], RedeemedCol)
    {
      assert periods[..i + 1][..i] == periods[..i];
      accrued := accrued + periods[i].accrued;
      withBonus := withBonus + periods[i].litersWithBonus;
      total := total + periods[i].litersTotal;
      redeemed := redeemed + periods[i].redeemed;
    }
    assert periods[..|periods|] == periods;
    report := periods + [ReportRow(TotalLabel, accrued, withBonus, total, redeemed, Rate(accrued, withBonus))];
  }

  /** A period label is never the total label: it is a month name, a space
      and four digits, longer than "ИТОГО". */
  lemma LabelIsNotTotal(p: Period, names: MonthNames)
    requires SingleWordNames(names)
    ensures Label(p, names) != TotalLabel
  {
    DecimalStringOfFourDigits(p.year);
    assert |Label(p, names)| >= 6;
  }

  /** Exactly one row, the last, is the total row; the rows before it are the
      per-period report unchanged. */
  lemma TotalRowLastAndOnly(rows: seq<CleanRow>, names: MonthNames)
    requires SingleWordNames(names)
    ensures var r := ReportWithTotal(rows, names);
      && |r| == |Report(rows, names)| + 1
      && r[..|r| - 1] == Report(rows, names)
      && r[|r| - 1].periodLabel == TotalLabel
      && forall j :: 0 <= j < |r| - 1 ==> r[j].periodLabel != TotalLabel
  {
    var ks := ReportKeys(rows);
    var r := ReportWithTotal(rows, names);
    RowsForAt(rows, ks, names);
    assert r[..|r| - 1] == Report(rows, names);
    forall j | 0 <= j < |r| - 1
      ensures r[j].periodLabel != TotalLabel
    {
      assert r[j] == RowFor(rows, ks[j], names);
      LabelIsNotTotal(ks[j], names);
    }
  }

  /** The totals against the cleaned table: every positive credit and its
      litres, the litres and the debits of the report's periods (redemptions
      as a non-negative amount), and the rate of the two credit totals. */
  lemma TotalFigures(rows: seq<CleanRow>, names: MonthNames)
    ensures TotalRow(Report(rows, names)).accrued == Sum(rows, BonusPlus, PositiveBonus)
    ensures TotalRow(Report(rows, names)).litersWithBonus == Sum(rows, Liters, PositiveBonus)
    ensures TotalRow(Report(rows, names)).litersTotal == SumIn(rows, SetOf(ReportKeys(rows)), Liters, AllRows)
    ensures TotalRow(Report(rows, names)).redeemed == -SumIn(rows, SetOf(ReportKeys(rows)), BonusMinus, NegativeBonus)
    ensures TotalRow(Report(rows, names)).redeemed >= 0.0
  {
    ReportColumnTotals(rows, names);
    SumSigns(rows, SetOf(ReportKeys(rows)));
  }

  /** The total rate is the rate of the two credit totals, 0 when no litre
      was sold with a credit. */
  lemma TotalRate(periods: seq<ReportRow>)
    ensures var total := TotalRow(periods);
      && (total.litersWithBonus != 0.0 ==> total.rate * total.litersWithBonus == total.accrued)
      && (total.litersWithBonus == 0.0 ==> total.rate == 0.0)
  {
  }

  /** The total rate is not the sum of the period rates: 10 credits on 5
      litres and 3 on 1 litre have rates 2 and 3, but the total rate is 13/6. */
  lemma TotalRateNotSumOfRates(jan: string, feb: string)
    ensures var periods := [ReportRow(jan, 10.0, 5.0, 5.0, 0.0, 2.0), ReportRow(feb, 3.0, 1.0, 1.0, 0.0, 3.0)];
      && TotalRow(periods).rate == 13.0 / 6.0
      && TotalRow(periods).rate != periods[0].rate + periods[1].rate
  {
    var periods := [ReportRow(jan, 10.0, 5.0, 5.0, 0.0, 2.0), ReportRow(feb, 3.0, 1.0, 1.0, 0.0, 3.0)];
    ColumnSumTwo(periods[0], periods[1], AccruedCol);
    ColumnSumTwo(periods[0], periods[1], LitersWithBonusCol);
  }

  lemma ColumnSumTwo(a: ReportRow, b: ReportRow, c: ReportColumn)
    ensures ColumnSum([a, b], c) == ColumnValue(a, c) + ColumnValue(b, c)
  {
    assert [a, b][..1] == [a];
    assert [a][..0] == [];
    assert ColumnSum([a], c) == ColumnValue(a, c);
  }

  /** The first and the second-to-last label of a report with more than one
      row have the words the abbreviated name needs. */
  predicate Nameable(report: seq<ReportRow>) {
    |report| > 1 ==>
      var first, last := report[0].periodLabel, report[|report| - 2].periodLabel;
      |FullName(first, last)| > MaxSheetNameLength ==> Abbreviable(first, last)
  }

  /** `get_sheet_name_from_data` of old/report_final.py: the default name when
      there is at most the total row, otherwise the name built from row 0 and
      the row before the total. */
  function SheetName(report: seq<ReportRow>): string
    requires Nameable(report)
  {
    if |report| <= 1 then DefaultSheetName
    else NameFor(report[0].periodLabel, report[|report| - 2].periodLabel)
  }

  /** The "Период" column of the old report as the script builds it. The
      rename after `reset_index` looks for a column "index", but the labels
      sit in the column "period", so nothing is renamed; the concat with the
      total row then creates "Период", NaN on every period row and "ИТОГО"
      on the total row. */
  function PeriodColumnAsWritten(periods: seq<ReportRow>): (col: seq<Option<string>>)
    ensures |col| == |periods| + 1
    ensures forall j :: 0 <= j < |periods| ==> col[j].None?
    ensures col[|periods|] == Some(TotalLabel)
  {
    seq(|periods|, _ => None) + [Some(TotalLabel)]
  }

  /** `get_sheet_name_from_data` of old/report_final.py on the report as the
      script builds it: the name comes from the "Период" column. */
  function SheetNameAsWritten(periods: seq<ReportRow>): string {
    var col := PeriodColumnAsWritten(periods);
    if |col| <= 1 then DefaultSheetName
    else
      var first, last := CellText(col[0]), CellText(col[|col| - 2]);
      FullNameLength(first, last);
      NameFor(first, last)
  }

  /** The sheet name built from periods always ends in the last digit of a year. */
  lemma PeriodsNameEndsInDigit(p: Period, q: Period, names: MonthNames)
    requires SingleWordNames(names)
    ensures var s := PeriodsName(p, q, names);
      s != [] && '0' <= s[|s| - 1] <= '9'
  {
    NameForPeriods(p, q, names);
    var year := DecimalString(q.year);
    var s := PeriodsName(p, q, names);
    assert s[|s| - 1] == year[|year| - 1];
  }

  /** As written, the old script names the sheet of any report with a period
      row "Отчет за nan - nan". */
  lemma NanSheetNameOf(periods: seq<ReportRow>)
    requires periods != []
    ensures SheetNameAsWritten(periods) == "Отчет за nan - nan"
  {
    var col := PeriodColumnAsWritten(periods);
    assert col[0].None? && col[|col| - 2].None?;
    FullNameLength("nan", "nan");
  }

  /** So every non-empty table gets that name, never one built from its
      periods. */
  lemma NanSheetName(rows: seq<CleanRow>, names: MonthNames)
    requires SingleWordNames(names)
    requires rows != []
    ensures SheetNameAsWritten(Report(rows, names)) == "Отчет за nan - nan"
    ensures var ks := ReportKeys(rows);
      ks != [] && SheetNameAsWritten(Report(rows, names)) != PeriodsName(ks[0], ks[|ks| - 1], names)
  {
    var ks := ReportKeys(rows);
    ReportNonEmpty(rows, names);
    NanSheetNameOf(Report(rows, names));
    PeriodsNameEndsInDigit(ks[0], ks[|ks| - 1], names);
  }

  /** The total row never enters the sheet name: for a non-empty cleaned table
      the name is built from the earliest and the latest period, as in report.py. */
  lemma SheetNameSkipsTotal(rows: seq<CleanRow>, names: MonthNames)
    requires SingleWordNames(names)
    requires rows != []
    ensures Nameable(ReportWithTotal(rows, names))
    ensures var ks := ReportKeys(rows);
      && ks != []
      && SheetName(ReportWithTotal(rows, names)) == PeriodsName(ks[0], ks[|ks| - 1], names)
      && |SheetName(ReportWithTotal(rows, names))| <= MaxSheetNameLength
  {
    var ks := ReportKeys(rows);
    var r := ReportWithTotal(rows, names);
    ReportNonEmpty(rows, names);
    RowsForAt(rows, ks, names);
    assert r[0] == RowFor(rows, ks[0], names);
    assert r[|r| - 2] == RowFor(rows, ks[|ks| - 1], names);
    LabelWords(ks[0], names);
    LabelWords(ks[|ks| - 1], names);
    NameForPeriods(ks[0], ks[|ks| - 1], names);
  }

  /** An empty cleaned table gives only the total row, of zeros, and the
      default sheet name. The old pipeline never reaches this case: the loader
      keeps only non-empty frames (old/report_final.py:159), and when no date
      parses `validate_and_clean_data` fails first, formatting a missing date
      at old/report_final.py:142. It states what `calculate_report` and the
      namer do on their own. */
  lemma EmptyTableOnlyTotal(names: MonthNames)
    ensures ReportWithTotal([], names) == [ReportRow(TotalLabel, 0.0, 0.0, 0.0, 0.0, 0.0)]
    ensures SheetName(ReportWithTotal([], names)) == DefaultSheetName
  {
    assert GroupKeys([], AllRows) == [];
  }
}
