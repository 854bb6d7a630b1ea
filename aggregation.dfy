/** The per-period part of `calculate_report`, the same in report.py and
    old/report_final.py: group the cleaned rows by period, sum the positive
    credits and their litres, the litres of all rows and the debits, and derive
    the guarded rate per litre. */
module Aggregation {
  import opened Text
  import opened Records

  /** The amount columns the report sums. */
  datatype Measure = BonusPlus | BonusMinus | Liters

  /** The row sets the report groups: the whole cleaned table, `positive_bonus`
      (rows with bonus_plus > 0) and `negative_bonus` (rows with bonus_minus < 0). */
  datatype Subset = AllRows | PositiveBonus | NegativeBonus

  function Amount(r: CleanRow, m: Measure): real {
    match m
    case BonusPlus => r.bonusPlus
    case BonusMinus => r.bonusMinus
    case Liters => r.liters
  }

  predicate InSubset(r: CleanRow, sub: Subset) {
    match sub
    case AllRows => true
    case PositiveBonus => r.bonusPlus > 0.0
    case NegativeBonus => r.bonusMinus < 0.0
  }

  /** What row `r` adds to a sum of measure `m` over subset `sub` and periods `ks`. */
  function Contribution(r: CleanRow, ks: set<Period>, m: Measure, sub: Subset): real {
    if r.period in ks && InSubset(r, sub) then Amount(r, m) else 0.0
  }

  /** The sum of measure `m` over the rows of subset `sub` whose period is in `ks`. */
  function SumIn(rows: seq<CleanRow>, ks: set<Period>, m: Measure, sub: Subset): real {
    if rows == [] then 0.0
    else SumIn(rows[..|rows| - 1], ks, m, sub) + Contribution(rows[|rows| - 1], ks, m, sub)
  }

  /** The sum of measure `m` over all rows of subset `sub`, whatever their period. */
  function Sum(rows: seq<CleanRow>, m: Measure, sub: Subset): real {
    if rows == [] then 0.0
    else
      var last := rows[|rows| - 1];
      Sum(rows[..|rows| - 1], m, sub) + (if InSubset(last, sub) then Amount(last, m) else 0.0)
  }

  /** `groupby("period")[m].sum()` over subset `sub`, at period `p` (0 where the
      group is absent, as `fillna(0)` makes it). */
  function PeriodSum(rows: seq<CleanRow>, p: Period, m: Measure, sub: Subset): real {
    SumIn(rows, {p}, m, sub)
  }

  /** Some row of subset `sub` falls in period `p`. */
  predicate HasRowIn(rows: seq<CleanRow>, p: Period, sub: Subset) {
    exists i :: 0 <= i < |rows| && rows[i].period == p && InSubset(rows[i], sub)
  }

  /** Some row belongs to subset `sub`. */
  predicate AnyIn(rows: seq<CleanRow>, sub: Subset) {
    exists i :: 0 <= i < |rows| && InSubset(rows[i], sub)
  }

  predicate StrictlyAscending(ps: seq<Period>) {
    forall i, j :: 0 <= i < j < |ps| ==> Before(ps[i], ps[j])
  }

  function SetOf(ps: seq<Period>): set<Period> {
    set p | p in ps
  }

  /** Adds `p` to an ascending list of distinct periods, keeping it so. */
  function Insert(ps: seq<Period>, p: Period): (r: seq<Period>)
    requires StrictlyAscending(ps)
    ensures StrictlyAscending(r)
    ensures forall q :: q in r <==> q in ps || q == p
  {
    if ps == [] then [p]
    else if ps[0] == p then ps
    else if Before(p, ps[0]) then [p] + ps
    else
      var rest := Insert(ps[1..], p);
      assert forall q :: q in rest ==> Before(ps[0], q);
      [ps[0]] + rest
  }

  lemma HasRowInSnoc(rows: seq<CleanRow>, sub: Subset)
    requires rows != []
    ensures forall p :: HasRowIn(rows, p, sub) <==>
              HasRowIn(rows[..|rows| - 1], p, sub) || (rows[|rows| - 1].period == p && InSubset(rows[|rows| - 1], sub))
  {
    var init := rows[..|rows| - 1];
    forall p | HasRowIn(init, p, sub) ensures HasRowIn(rows, p, sub) {
      var i :| 0 <= i < |init| && init[i].period == p && InSubset(init[i], sub);
      assert rows[i] == init[i];
    }
  }

  /** The sorted keys of `groupby("period")` over the rows of subset `sub`. */
  function GroupKeys(rows: seq<CleanRow>, sub: Subset): (ks: seq<Period>)
    ensures StrictlyAscending(ks)
    ensures forall p :: p in ks <==> HasRowIn(rows, p, sub)
  {
    if rows == [] then []
    else
      var last := rows[|rows| - 1];
      var ks := GroupKeys(rows[..|rows| - 1], sub);
      HasRowInSnoc(rows, sub);
      if InSubset(last, sub) then Insert(ks, last.period) else ks
  }

  /** The index of the report. It is the index of the positive-credit grouping;
      but when no row has a positive credit that grouping is empty, and assigning
      the litres-total column to an empty frame makes pandas adopt that column's
      index, so the report then has every period of the table. */
  function ReportKeys(rows: seq<CleanRow>): seq<Period> {
    var positive := GroupKeys(rows, PositiveBonus);
    if positive == [] then GroupKeys(rows, AllRows) else positive
  }

  /** The guarded rate of the "per litre" column. */
  function Rate(accrued: real, liters: real): (r: real)
    ensures liters == 0.0 ==> r == 0.0
    ensures liters != 0.0 ==> r * liters == accrued
  {
    if liters != 0.0 then accrued / liters else 0.0
  }

  function Abs(x: real): real {
    if x < 0.0 then -x else x
  }

  /** The report row of period `p`. */
  function RowFor(rows: seq<CleanRow>, p: Period, names: MonthNames): ReportRow {
    var accrued := PeriodSum(rows, p, BonusPlus, PositiveBonus);
    var withBonus := PeriodSum(rows, p, Liters, PositiveBonus);
    ReportRow(Label(p, names), accrued, withBonus, PeriodSum(rows, p, Liters, AllRows),
              Abs(PeriodSum(rows, p, BonusMinus, NegativeBonus)), Rate(accrued, withBonus))
  }

  /** The report rows of the periods `ks`, in that order. */
  function RowsFor(rows: seq<CleanRow>, ks: seq<Period>, names: MonthNames): seq<ReportRow> {
    if ks == [] then []
    else RowsFor(rows, ks[..|ks| - 1], names) + [RowFor(rows, ks[|ks| - 1], names)]
  }

  /** The per-period report `calculate_report` builds. */
  function Report(rows: seq<CleanRow>, names: MonthNames): seq<ReportRow> {
    RowsFor(rows, ReportKeys(rows), names)
  }

  function Get(m: map<Period, real>, p: Period): real {
    if p in m then m[p] else 0.0
  }

  /** `subset.groupby("period")[m].sum()`: one pass over the rows adds the
      measure of each row of the subset to the sum of its period, and collects
      the sorted group keys. */
  method GroupSum(rows: seq<CleanRow>, m: Measure, sub: Subset) returns (sums: map<Period, real>, keys: seq<Period>)
    ensures forall p :: Get(sums, p) == PeriodSum(rows, p, m, sub)
    ensures keys == GroupKeys(rows, sub)
  {
    sums, keys := map[], [];
    for i := 0 to |rows|
      invariant forall p :: Get(sums, p) == PeriodSum(rows[..i], p, m, sub)
      invariant keys == GroupKeys(rows[..i], sub)
    {
      assert rows[..i + 1][..i] == rows[..i];
      PeriodSumSnoc(rows[..i + 1], m, sub);
      var r := rows[i];
      if InSubset(r, sub) {
        sums := sums[r.period := Get(sums, r.period) + Amount(r, m)];
        keys := Insert(keys, r.period);
      }
    }
    assert rows[..|rows|] == rows;
  }

  /** The assembly of the report from the groupings: for each period of the
      index, the positive-credit sums, the litres total and the debits (0 for
      the whole column when there is no debit row), 0 where a period has no
      group, and the guarded rate. */
  method AssembleRows(rows: seq<CleanRow>, keys: seq<Period>, names: MonthNames,
                      accrued: map<Period, real>, withBonus: map<Period, real>,
                      total: map<Period, real>, minus: map<Period, real>, anyNegative: bool)
    returns (report: seq<ReportRow>)
    requires forall p :: Get(accrued, p) == PeriodSum(rows, p, BonusPlus, PositiveBonus)
    requires forall p :: Get(withBonus, p) == PeriodSum(rows, p, Liters, PositiveBonus)
    requires forall p :: Get(total, p) == PeriodSum(rows, p, Liters, AllRows)
    requires forall p :: Get(minus, p) == PeriodSum(rows, p, BonusMinus, NegativeBonus)
    requires anyNegative == AnyIn(rows, NegativeBonus)
    ensures report == RowsFor(rows, keys, names)
  {
    report := [];
    for k := 0 to |keys|
      invariant report == RowsFor(rows, keys[..k], names)
    {
      assert keys[..k + 1][..k] == keys[..k];
      var p := keys[k];
      var a, w := Get(accrued, p), Get(withBonus, p);
      var redeemed := 0.0;
      if anyNegative {
        redeemed := Abs(Get(minus, p));
      } else {
        SumInNone(rows, {p}, BonusMinus, NegativeBonus);
      }
      report := report + [ReportRow(Label(p, names), a, w, Get(total, p), redeemed, Rate(a, w))];
    }
    assert keys[..|keys|] == keys;
  }

  /** `calculate_report` up to the formatted, re-indexed report: the groupings
      of the positive credits, of all rows and of the debits, the report index
      (the positive-credit keys, or all keys when there are none), then the
      assembly of the rows. */
  method CalculateReport(rows: seq<CleanRow>, names: MonthNames) returns (report: seq<ReportRow>)
    ensures report == Report(rows, names)
  {
    var accrued, positiveKeys := GroupSum(rows, BonusPlus, PositiveBonus);
    var withBonus, _ := GroupSum(rows, Liters, PositiveBonus);
    var total, allKeys := GroupSum(rows, Liters, AllRows);
    var minus, negativeKeys := GroupSum(rows, BonusMinus, NegativeBonus);
    KeysIffRows(rows, NegativeBonus);
    var keys := if positiveKeys == [] then allKeys else positiveKeys;
    report := AssembleRows(rows, keys, names, accrued, withBonus, total, minus, negativeKeys != []);
  }

  // ---------------------------------------------------------------------
  // Helpers about sums

  lemma AnyInSnoc(rows: seq<CleanRow>, sub: Subset)
    requires rows != []
    ensures AnyIn(rows, sub) <==> AnyIn(rows[..|rows| - 1], sub) || InSubset(rows[|rows| - 1], sub)
  {
    var init := rows[..|rows| - 1];
    if AnyIn(init, sub) {
      var i :| 0 <= i < |init| && InSubset(init[i], sub);
      assert rows[i] == init[i];
    }
  }

  /** The per-period sums after one more row: only that row's period changes. */
  lemma PeriodSumSnoc(rows: seq<CleanRow>, m: Measure, sub: Subset)
    requires rows != []
    ensures forall p :: PeriodSum(rows, p, m, sub) ==
              PeriodSum(rows[..|rows| - 1], p, m, sub) + (if rows[|rows| - 1].period == p && InSubset(rows[|rows| - 1], sub) then Amount(rows[|rows| - 1], m) else 0.0)
  {
  }

  /** A table of two rows sums their contributions. */
  lemma SumInTwo(a: CleanRow, b: CleanRow, ks: set<Period>, m: Measure, sub: Subset)
    ensures SumIn([a, b], ks, m, sub) == Contribution(a, ks, m, sub) + Contribution(b, ks, m, sub)
  {
    assert [a, b][..1] == [a];
    assert [a][..0] == [];
    assert SumIn([a], ks, m, sub) == Contribution(a, ks, m, sub);
  }

  /** A subset with no rows sums to 0. */
  lemma {:induction false} SumInNone(rows: seq<CleanRow>, ks: set<Period>, m: Measure, sub: Subset)
    requires !AnyIn(rows, sub)
    ensures SumIn(rows, ks, m, sub) == 0.0
  {
    if rows != [] {
      AnyInSnoc(rows, sub);
      SumInNone(rows[..|rows| - 1], ks, m, sub);
    }
  }

  /** Positive credits sum to a non-negative amount, debits to a non-positive one. */
  lemma {:induction false} SumSigns(rows: seq<CleanRow>, ks: set<Period>)
    ensures SumIn(rows, ks, BonusPlus, PositiveBonus) >= 0.0
    ensures SumIn(rows, ks, BonusMinus, NegativeBonus) <= 0.0
  {
    if rows != [] {
      SumSigns(rows[..|rows| - 1], ks);
    }
  }

  /** A period holding a positive credit has a positive accrued sum. */
  lemma {:induction false} AccruedPositive(rows: seq<CleanRow>, p: Period)
    requires HasRowIn(rows, p, PositiveBonus)
    ensures PeriodSum(rows, p, BonusPlus, PositiveBonus) > 0.0
  {
    var init, last := rows[..|rows| - 1], rows[|rows| - 1];
    HasRowInSnoc(rows, PositiveBonus);
    SumSigns(init, {p});
    if HasRowIn(init, p, PositiveBonus) {
      AccruedPositive(init, p);
    }
  }

  /** A period without a debit row has nothing redeemed. */
  lemma {:induction false} NoDebitsInPeriod(rows: seq<CleanRow>, p: Period)
    requires !HasRowIn(rows, p, NegativeBonus)
    ensures PeriodSum(rows, p, BonusMinus, NegativeBonus) == 0.0
  {
    if rows != [] {
      HasRowInSnoc(rows, NegativeBonus);
      NoDebitsInPeriod(rows[..|rows| - 1], p);
    }
  }

  /** No positive credit anywhere: the positive sums of every period are 0. */
  lemma {:induction false} NoCreditsNoAccrual(rows: seq<CleanRow>, p: Period)
    requires !AnyIn(rows, PositiveBonus)
    ensures PeriodSum(rows, p, BonusPlus, PositiveBonus) == 0.0
    ensures PeriodSum(rows, p, Liters, PositiveBonus) == 0.0
  {
    SumInNone(rows, {p}, BonusPlus, PositiveBonus);
    SumInNone(rows, {p}, Liters, PositiveBonus);
  }

  // ---------------------------------------------------------------------
  // The shape of the report

  /** A subset without rows has no groups. */
  lemma {:induction false} NoRowsNoKeys(rows: seq<CleanRow>, sub: Subset)
    requires !AnyIn(rows, sub)
    ensures GroupKeys(rows, sub) == []
  {
    if rows != [] {
      AnyInSnoc(rows, sub);
      NoRowsNoKeys(rows[..|rows| - 1], sub);
    }
  }

  /** A subset has groups exactly when it has rows; this is what the
      `negative_bonus.empty` test decides. */
  lemma KeysIffRows(rows: seq<CleanRow>, sub: Subset)
    ensures GroupKeys(rows, sub) == [] <==> !AnyIn(rows, sub)
  {
    if AnyIn(rows, sub) {
      var i :| 0 <= i < |rows| && InSubset(rows[i], sub);
      assert HasRowIn(rows, rows[i].period, sub);
    } else {
      NoRowsNoKeys(rows, sub);
    }
  }

  /** The first of an ascending list of periods is the earliest, its last the latest. */
  lemma AscendingEnds(ks: seq<Period>)
    requires StrictlyAscending(ks) && ks != []
    ensures forall p :: p in ks ==> !Before(p, ks[0]) && !Before(ks[|ks| - 1], p)
  {
    forall p | p in ks
      ensures !Before(p, ks[0]) && !Before(ks[|ks| - 1], p)
    {
      var i :| 0 <= i < |ks| && ks[i] == p;
      if 0 < i {
        assert Before(ks[0], ks[i]);
      }
      if i < |ks| - 1 {
        assert Before(ks[i], ks[|ks| - 1]);
      }
    }
  }

  /** The rows for a list of periods are, in order, the rows of those periods. */
  lemma {:induction false} RowsForAt(rows: seq<CleanRow>, ks: seq<Period>, names: MonthNames)
    ensures |RowsFor(rows, ks, names)| == |ks|
    ensures forall j :: 0 <= j < |ks| ==> RowsFor(rows, ks, names)[j] == RowFor(rows, ks[j], names)
  {
    if ks != [] {
      RowsForAt(rows, ks[..|ks| - 1], names);
    }
  }

  /** The report index: strictly ascending periods; the periods holding a
      positive credit, or every period of the table when no row has one. */
  lemma ReportPeriods(rows: seq<CleanRow>, p: Period)
    ensures StrictlyAscending(ReportKeys(rows))
    ensures AnyIn(rows, PositiveBonus) ==> (p in ReportKeys(rows) <==> HasRowIn(rows, p, PositiveBonus))
    ensures !AnyIn(rows, PositiveBonus) ==> (p in ReportKeys(rows) <==> HasRowIn(rows, p, AllRows))
  {
    var positive := GroupKeys(rows, PositiveBonus);
    if AnyIn(rows, PositiveBonus) {
      var i :| 0 <= i < |rows| && InSubset(rows[i], PositiveBonus);
      assert rows[i].period in positive;
    } else {
      NoRowsNoKeys(rows, PositiveBonus);
    }
  }

  /** The figures of the report row of period `p`: the label of its month, the
      positive credits and their litres, all its litres, its debits as a
      non-negative amount (0 without a debit row), and the rate guarded against
      division by zero. */
  lemma RowForFigures(rows: seq<CleanRow>, p: Period, names: MonthNames)
    ensures var row := RowFor(rows, p, names);
      && row.periodLabel == Label(p, names)
      && row.accrued == PeriodSum(rows, p, BonusPlus, PositiveBonus)
      && row.litersWithBonus == PeriodSum(rows, p, Liters, PositiveBonus)
      && row.litersTotal == PeriodSum(rows, p, Liters, AllRows)
      && row.redeemed == -PeriodSum(rows, p, BonusMinus, NegativeBonus)
      && row.redeemed >= 0.0
      && (!HasRowIn(rows, p, NegativeBonus) ==> row.redeemed == 0.0)
      && (row.litersWithBonus == 0.0 ==> row.rate == 0.0)
      && (row.litersWithBonus != 0.0 ==> row.rate * row.litersWithBonus == row.accrued)
  {
    SumSigns(rows, {p});
    if !HasRowIn(rows, p, NegativeBonus) {
      NoDebitsInPeriod(rows, p);
    }
  }

  /** Row `j` of the report is the row of the `j`-th report period; its accrued
      figure is positive, except when no row has a credit, where the whole row
      is zero apart from its litres and debits. */
  lemma ReportRowFigures(rows: seq<CleanRow>, names: MonthNames, j: int)
    requires 0 <= j < |ReportKeys(rows)|
    ensures |Report(rows, names)| == |ReportKeys(rows)|
    ensures Report(rows, names)[j] == RowFor(rows, ReportKeys(rows)[j], names)
    ensures AnyIn(rows, PositiveBonus) ==> Report(rows, names)[j].accrued > 0.0
    ensures !AnyIn(rows, PositiveBonus) ==>
      var row := Report(rows, names)[j];
      row.accrued == 0.0 && row.litersWithBonus == 0.0 && row.rate == 0.0
  {
    var ks := ReportKeys(rows);
    var p := ks[j];
    RowsForAt(rows, ks, names);
    ReportPeriods(rows, p);
    if AnyIn(rows, PositiveBonus) {
      AccruedPositive(rows, p);
    } else {
      NoCreditsNoAccrual(rows, p);
    }
  }

  /** A non-empty cleaned table always yields a non-empty report, so the
      "could not compute the report" exit after `calculate_report` is never taken. */
  lemma ReportNonEmpty(rows: seq<CleanRow>, names: MonthNames)
    requires rows != []
    ensures Report(rows, names) != []
  {
    var last := rows[|rows| - 1];
    assert HasRowIn(rows, last.period, AllRows);
    assert last.period in GroupKeys(rows, AllRows);
    RowsForAt(rows, ReportKeys(rows), names);
  }

  // ---------------------------------------------------------------------
  // Column sums

  /** The numeric columns of the report. */
  datatype ReportColumn = AccruedCol | LitersWithBonusCol | LitersTotalCol | RedeemedCol

  function ColumnValue(row: ReportRow, c: ReportColumn): real {
    match c
    case AccruedCol => row.accrued
    case LitersWithBonusCol => row.litersWithBonus
    case LitersTotalCol => row.litersTotal
    case RedeemedCol => row.redeemed
  }

  /** `report[c].sum()`. */
  function ColumnSum(report: seq<ReportRow>, c: ReportColumn): real {
    if report == [] then 0.0
    else ColumnSum(report[..|report| - 1], c) + ColumnValue(report[|report| - 1], c)
  }

  /** The per-period sums over a list of periods, added up. */
  function KeysSum(rows: seq<CleanRow>, ks: seq<Period>, m: Measure, sub: Subset): real {
    if ks == [] then 0.0
    else KeysSum(rows, ks[..|ks| - 1], m, sub) + PeriodSum(rows, ks[|ks| - 1], m, sub)
  }

  lemma {:induction false} SumInUnion(rows: seq<CleanRow>, a: set<Period>, b: set<Period>, m: Measure, sub: Subset)
    requires a !! b
    ensures SumIn(rows, a + b, m, sub) == SumIn(rows, a, m, sub) + SumIn(rows, b, m, sub)
  {
    if rows != [] {
      SumInUnion(rows[..|rows| - 1], a, b, m, sub);
    }
  }

  /** Adding up the groups of distinct periods gives the sum over their union:
      each row lands in exactly one group. */
  lemma {:induction false} KeysSumIsSumIn(rows: seq<CleanRow>, ks: seq<Period>, m: Measure, sub: Subset)
    requires StrictlyAscending(ks)
    ensures KeysSum(rows, ks, m, sub) == SumIn(rows, SetOf(ks), m, sub)
  {
    if ks == [] {
      assert SetOf(ks) == {};
      SumInEmptySet(rows, m, sub);
    } else {
      var init, last := ks[..|ks| - 1], ks[|ks| - 1];
      KeysSumIsSumIn(rows, init, m, sub);
      assert SetOf(ks) == SetOf(init) + {last};
      assert last !in SetOf(init);
      SumInUnion(rows, SetOf(init), {last}, m, sub);
    }
  }

  lemma {:induction false} SumInEmptySet(rows: seq<CleanRow>, m: Measure, sub: Subset)
    ensures SumIn(rows, {}, m, sub) == 0.0
  {
    if rows != [] {
      SumInEmptySet(rows[..|rows| - 1], m, sub);
    }
  }

  /** When every row of the subset falls in one of the periods `ks`, summing over
      those periods sums the whole subset. */
  lemma {:induction false} SumInCovering(rows: seq<CleanRow>, ks: set<Period>, m: Measure, sub: Subset)
    requires forall i :: 0 <= i < |rows| && InSubset(rows[i], sub) ==> rows[i].period in ks
    ensures SumIn(rows, ks, m, sub) == Sum(rows, m, sub)
  {
    if rows != [] {
      var init := rows[..|rows| - 1];
      assert forall i :: 0 <= i < |init| ==> init[i] == rows[i];
      SumInCovering(init, ks, m, sub);
    }
  }

  /** The column sums of the rows for distinct periods `ks`. */
  lemma {:induction false} ColumnSumsOfRowsFor(rows: seq<CleanRow>, ks: seq<Period>, names: MonthNames)
    ensures ColumnSum(RowsFor(rows, ks, names), AccruedCol) == KeysSum(rows, ks, BonusPlus, PositiveBonus)
    ensures ColumnSum(RowsFor(rows, ks, names), LitersWithBonusCol) == KeysSum(rows, ks, Liters, PositiveBonus)
    ensures ColumnSum(RowsFor(rows, ks, names), LitersTotalCol) == KeysSum(rows, ks, Liters, AllRows)
    ensures ColumnSum(RowsFor(rows, ks, names), RedeemedCol) == -KeysSum(rows, ks, BonusMinus, NegativeBonus)
  {
    if ks != [] {
      var init, last := ks[..|ks| - 1], ks[|ks| - 1];
      ColumnSumsOfRowsFor(rows, init, names);
      var report := RowsFor(rows, ks, names);
      assert report[..|report| - 1] == RowsFor(rows, init, names);
      SumSigns(rows, {last});
    }
  }

  /** The column totals of a report over distinct periods `ks`. When `ks` covers
      the period of every positive credit, the accrued total is every positive
      credit of the table and the litres-with-bonus total their litres. */
  lemma ColumnTotals(rows: seq<CleanRow>, ks: seq<Period>, names: MonthNames)
    requires StrictlyAscending(ks)
    requires forall i :: 0 <= i < |rows| && InSubset(rows[i], PositiveBonus) ==> rows[i].period in ks
    ensures ColumnSum(RowsFor(rows, ks, names), AccruedCol) == Sum(rows, BonusPlus, PositiveBonus)
    ensures ColumnSum(RowsFor(rows, ks, names), LitersWithBonusCol) == Sum(rows, Liters, PositiveBonus)
    ensures ColumnSum(RowsFor(rows, ks, names), LitersTotalCol) == SumIn(rows, SetOf(ks), Liters, AllRows)
    ensures ColumnSum(RowsFor(rows, ks, names), RedeemedCol) == -SumIn(rows, SetOf(ks), BonusMinus, NegativeBonus)
  {
    ColumnSumsOfRowsFor(rows, ks, names);
    KeysSumIsSumIn(rows, ks, BonusPlus, PositiveBonus);
    KeysSumIsSumIn(rows, ks, Liters, PositiveBonus);
    KeysSumIsSumIn(rows, ks, Liters, AllRows);
    KeysSumIsSumIn(rows, ks, BonusMinus, NegativeBonus);
    SumInCovering(rows, SetOf(ks), BonusPlus, PositiveBonus);
    SumInCovering(rows, SetOf(ks), Liters, PositiveBonus);
  }

  /** The column totals of the report as written: every positive credit and its
      litres are counted, but the litres and debits count only for the periods
      in the report. */
  lemma ReportColumnTotals(rows: seq<CleanRow>, names: MonthNames)
    ensures ColumnSum(Report(rows, names), AccruedCol) == Sum(rows, BonusPlus, PositiveBonus)
    ensures ColumnSum(Report(rows, names), LitersWithBonusCol) == Sum(rows, Liters, PositiveBonus)
    ensures ColumnSum(Report(rows, names), LitersTotalCol) == SumIn(rows, SetOf(ReportKeys(rows)), Liters, AllRows)
    ensures ColumnSum(Report(rows, names), RedeemedCol) == -SumIn(rows, SetOf(ReportKeys(rows)), BonusMinus, NegativeBonus)
  {
    var ks := ReportKeys(rows);
    forall i | 0 <= i < |rows| && InSubset(rows[i], PositiveBonus)
      ensures rows[i].period in ks
    {
      assert HasRowIn(rows, rows[i].period, PositiveBonus);
      assert HasRowIn(rows, rows[i].period, AllRows);
    }
    ColumnTotals(rows, ks, names);
  }

  // ---------------------------------------------------------------------
  // A period with litres or debits but no positive credit

  /** The report as written drops a period that has no positive credit when
      another period has one: January earns 10 on 5 litres, February sells 3
      litres with no credit, and the litres-total column adds up to 5, not 8. */
  lemma CreditlessPeriodDropped(names: MonthNames)
    ensures var jan := CleanRow(Date(2024, 1, 10, 0), 10.0, 0.0, 5.0, "", None, None, Period(2024, 1));
            var feb := CleanRow(Date(2024, 2, 10, 0), 0.0, 0.0, 3.0, "", None, None, Period(2024, 2));
            && |Report([jan, feb], names)| == 1
            && ColumnSum(Report([jan, feb], names), LitersTotalCol) == 5.0
            && Sum([jan, feb], Liters, AllRows) == 8.0
  {
    var jan := CleanRow(Date(2024, 1, 10, 0), 10.0, 0.0, 5.0, "", None, None, Period(2024, 1));
    var feb := CleanRow(Date(2024, 2, 10, 0), 0.0, 0.0, 3.0, "", None, None, Period(2024, 2));
    var rows := [jan, feb];
    assert rows[..1] == [jan];
    assert [jan][..0] == [];
    assert GroupKeys([jan], PositiveBonus) == [Period(2024, 1)];
    assert GroupKeys(rows, PositiveBonus) == [Period(2024, 1)];
    RowsForAt(rows, [Period(2024, 1)], names);
    var report := Report(rows, names);
    assert report[..0] == [];
    SumInTwo(jan, feb, {Period(2024, 1)}, Liters, AllRows);
    assert rows[..0] == [];
  }

  /** The report over every period of the table (an outer join on period), which
      is what the litres-total column evidently intends. */
  function ReportAllPeriods(rows: seq<CleanRow>, names: MonthNames): seq<ReportRow> {
    RowsFor(rows, GroupKeys(rows, AllRows), names)
  }

  /** Over every period, no litre and no debit is lost: the column totals are
      the totals of the whole cleaned table. */
  lemma AllPeriodsKeepTotals(rows: seq<CleanRow>, names: MonthNames)
    ensures ColumnSum(ReportAllPeriods(rows, names), AccruedCol) == Sum(rows, BonusPlus, PositiveBonus)
    ensures ColumnSum(ReportAllPeriods(rows, names), LitersWithBonusCol) == Sum(rows, Liters, PositiveBonus)
    ensures ColumnSum(ReportAllPeriods(rows, names), LitersTotalCol) == Sum(rows, Liters, AllRows)
    ensures ColumnSum(ReportAllPeriods(rows, names), RedeemedCol) == -Sum(rows, BonusMinus, NegativeBonus)
  {
    var ks := GroupKeys(rows, AllRows);
    forall i | 0 <= i < |rows|
      ensures rows[i].period in ks
    {
      assert HasRowIn(rows, rows[i].period, AllRows);
    }
    ColumnTotals(rows, ks, names);
    SumInCovering(rows, SetOf(ks), Liters, AllRows);
    SumInCovering(rows, SetOf(ks), BonusMinus, NegativeBonus);
  }

  /** Example: two January rows, one earning 10 on 5 litres, one with no
      credit, 3 litres and a debit of 2, give accrued 10, litres with bonus 5,
      litres total 8, redeemed 2 and a rate of 2. */
  lemma JanuaryScenario(names: MonthNames)
    ensures var a := CleanRow(Date(2024, 1, 10, 0), 10.0, 0.0, 5.0, "", None, None, Period(2024, 1));
            var b := CleanRow(Date(2024, 1, 20, 0), 0.0, -2.0, 3.0, "", None, None, Period(2024, 1));
            Report([a, b], names) == [ReportRow(Label(Period(2024, 1), names), 10.0, 5.0, 8.0, 2.0, 2.0)]
  {
    var a := CleanRow(Date(2024, 1, 10, 0), 10.0, 0.0, 5.0, "", None, None, Period(2024, 1));
    var b := CleanRow(Date(2024, 1, 20, 0), 0.0, -2.0, 3.0, "", None, None, Period(2024, 1));
    var rows := [a, b];
    var jan := Period(2024, 1);
    assert rows[..1] == [a];
    assert [a][..0] == [];
    assert GroupKeys([a], PositiveBonus) == [jan];
    assert GroupKeys(rows, PositiveBonus) == [jan];
    SumInTwo(a, b, {jan}, BonusPlus, PositiveBonus);
    SumInTwo(a, b, {jan}, Liters, PositiveBonus);
    SumInTwo(a, b, {jan}, Liters, AllRows);
    SumInTwo(a, b, {jan}, BonusMinus, NegativeBonus);
    assert Rate(10.0, 5.0) == 2.0;
    assert ReportKeys(rows) == [jan];
    assert [jan][..0] == [];
    assert RowsFor(rows, [jan], names) == [RowFor(rows, jan, names)];
  }
}
