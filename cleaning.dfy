/** The validator/cleaner `validate_and_clean_data`, the same in report.py and
    old/report_final.py: it refuses a table that lacks a required column, drops
    the rows whose date did not parse, zeroes non-numeric amounts, trims the
    reason and derives the period of every kept row. */
module Cleaning {
  import opened Text
  import opened Records

  /** The columns whose absence makes the whole table unusable. */
  const RequiredColumns: set<Column> := {DateCol, BonusPlusCol, BonusMinusCol, LitersCol, ReasonCol}

  /** Some row has a date that parses. Without one the source fails when it
      formats the earliest date for its summary line. */
  predicate HasValidDate(rows: seq<RawRow>) {
    exists i :: 0 <= i < |rows| && rows[i].date.Some?
  }

  /** `pd.to_numeric(column, errors="coerce").fillna(0)` for one cell. */
  function NumberOrZero(v: Option<real>): real {
    match v
    case Some(x) => x
    case None => 0.0
  }

  /** The cleaned form of a row whose date parsed to `d`. */
  function CleanRowOf(r: RawRow, d: Date): CleanRow {
    CleanRow(d, NumberOrZero(r.bonusPlus), NumberOrZero(r.bonusMinus), NumberOrZero(r.liters),
             Strip(CellText(r.reason)), r.azsNumber, r.fuelMark, PeriodOf(d))
  }

  /** What one row contributes to the cleaned table: its cleaned form if its
      date parsed, nothing otherwise. */
  function CleanOne(r: RawRow): seq<CleanRow> {
    if r.date.Some? then [CleanRowOf(r, r.date.value)] else []
  }

  /** The cleaned rows: the dated rows, in order, each cleaned. */
  function CleanRows(rows: seq<RawRow>): seq<CleanRow> {
    if rows == [] then []
    else CleanRows(rows[..|rows| - 1]) + CleanOne(rows[|rows| - 1])
  }

  /** `df["date"].isna().sum()`: how many dates did not parse. */
  function MissingDates(rows: seq<RawRow>): nat {
    if rows == [] then 0
    else
      var last := rows[|rows| - 1];
      MissingDates(rows[..|rows| - 1]) + (if last.date.None? then 1 else 0)
  }

  /** What `validate_and_clean_data` returns: `None` on a missing required column. */
  function Clean(t: Table): Option<seq<CleanRow>> {
    if RequiredColumns <= t.columns then Some(CleanRows(t.rows)) else None
  }

  /** A cleaned row as every row of the cleaned table is: its reason has no
      leading or trailing whitespace and its period is the month of its date. */
  predicate WellFormed(c: CleanRow) {
    && (c.reason == [] || (!IsSpace(c.reason[0]) && !IsSpace(c.reason[|c.reason| - 1])))
    && c.period.year == c.date.year
    && c.period.month == c.date.month
  }

  /** `validate_and_clean_data`. The reported count of unparseable dates is
      returned beside the table (0 when the table is refused). */
  method ValidateAndClean(t: Table) returns (cleaned: Option<seq<CleanRow>>, missingDates: nat)
    requires RequiredColumns <= t.columns ==> HasValidDate(t.rows)
    ensures cleaned == Clean(t)
    ensures missingDates == if cleaned.Some? then MissingDates(t.rows) else 0
  {
    if !(RequiredColumns <= t.columns) {
      return None, 0;
    }
    var rows := t.rows;
    var kept: seq<CleanRow> := [];
    missingDates := 0;
    for i := 0 to |rows|
      invariant kept == CleanRows(rows[..i])
      invariant missingDates == MissingDates(rows[..i])
    {
      assert rows[..i + 1][..i] == rows[..i];
      var r := rows[i];
      match r.date {
        case None =>
          missingDates := missingDates + 1;
        case Some(d) =>
          kept := kept + [CleanRowOf(r, d)];
      }
    }
    assert rows[..|rows|] == rows;
    cleaned := Some(kept);
  }

  /** Every row is either kept or counted as a missing date. */
  lemma {:induction false} CleanRowsCount(rows: seq<RawRow>)
    ensures |CleanRows(rows)| + MissingDates(rows) == |rows|
  {
    if rows != [] {
      CleanRowsCount(rows[..|rows| - 1]);
    }
  }

  /** Cleaning works row by row, so the kept rows stay in their input order. */
  lemma {:induction false} CleanRowsAppend(a: seq<RawRow>, b: seq<RawRow>)
    ensures CleanRows(a + b) == CleanRows(a) + CleanRows(b)
  {
    if b == [] {
      assert a + b == a;
    } else {
      var init, last := b[..|b| - 1], b[|b| - 1];
      var ab := a + b;
      assert ab[..|ab| - 1] == a + init;
      assert ab[|ab| - 1] == last;
      CleanRowsAppend(a, init);
      var x, y, z := CleanRows(a), CleanRows(init), CleanOne(last);
      assert CleanRows(ab) == (x + y) + z;
      assert CleanRows(b) == y + z;
      assert (x + y) + z == x + (y + z);
    }
  }

  /** Row `r` has a parsed date and `c` is its cleaned form. */
  predicate CleanedFrom(c: CleanRow, r: RawRow) {
    r.date.Some? && c == CleanRowOf(r, r.date.value)
  }

  /** Some row of `rows` has `c` as its cleaned form. */
  predicate SomeCleanedFrom(c: CleanRow, rows: seq<RawRow>) {
    exists i :: 0 <= i < |rows| && CleanedFrom(c, rows[i])
  }

  lemma {:induction false} SomeCleanedFromSnoc(c: CleanRow, rows: seq<RawRow>)
    requires rows != []
    ensures SomeCleanedFrom(c, rows) <==> SomeCleanedFrom(c, rows[..|rows| - 1]) || CleanedFrom(c, rows[|rows| - 1])
  {
    var init := rows[..|rows| - 1];
    if SomeCleanedFrom(c, init) {
      var i :| 0 <= i < |init| && CleanedFrom(c, init[i]);
      assert rows[i] == init[i];
    }
    if SomeCleanedFrom(c, rows) {
      var i :| 0 <= i < |rows| && CleanedFrom(c, rows[i]);
      if i < |init| {
        assert init[i] == rows[i];
      }
    }
  }

  /** A cleaned row is exactly the cleaned form of some row whose date parsed. */
  lemma {:induction false} CleanRowsExactly(rows: seq<RawRow>, c: CleanRow)
    ensures c in CleanRows(rows) <==> SomeCleanedFrom(c, rows)
  {
    if rows != [] {
      var init, last := rows[..|rows| - 1], rows[|rows| - 1];
      CleanRowsExactly(init, c);
      SomeCleanedFromSnoc(c, rows);
      assert c in CleanOne(last) <==> CleanedFrom(c, last);
      assert c in CleanRows(rows) <==> c in CleanRows(init) || c in CleanOne(last);
    }
  }

  /** Every row of the cleaned table is well formed, and keeps the non-numeric
      amounts of its source row as 0. */
  lemma CleanRowOfWellFormed(r: RawRow, d: Date)
    ensures WellFormed(CleanRowOf(r, d))
    ensures CleanRowOf(r, d).date == d
    ensures r.reason.None? ==> CleanRowOf(r, d).reason == "nan"
    ensures r.bonusPlus.None? ==> CleanRowOf(r, d).bonusPlus == 0.0
    ensures r.bonusMinus.None? ==> CleanRowOf(r, d).bonusMinus == 0.0
    ensures r.liters.None? ==> CleanRowOf(r, d).liters == 0.0
  {
  }

  /** The cleaned table satisfies the invariant of the data model: valid date,
      trimmed reason, period of the date's month. */
  lemma {:induction false} CleanRowsWellFormed(rows: seq<RawRow>)
    ensures forall k :: 0 <= k < |CleanRows(rows)| ==> WellFormed(CleanRows(rows)[k])
  {
    if rows != [] {
      var init, last := CleanRows(rows[..|rows| - 1]), rows[|rows| - 1];
      CleanRowsWellFormed(rows[..|rows| - 1]);
      if last.date.Some? {
        CleanRowOfWellFormed(last, last.date.value);
      }
      forall k | 0 <= k < |CleanRows(rows)|
        ensures WellFormed(CleanRows(rows)[k])
      {
        if k < |init| {
          assert CleanRows(rows)[k] == init[k];
        }
      }
    }
  }

  /** With a valid date somewhere, the cleaned table is not empty. */
  lemma {:induction false} CleanRowsNonEmpty(rows: seq<RawRow>)
    requires HasValidDate(rows)
    ensures CleanRows(rows) != []
  {
    var init, last := rows[..|rows| - 1], rows[|rows| - 1];
    if last.date.None? {
      var i :| 0 <= i < |rows| && rows[i].date.Some?;
      assert init[i] == rows[i];
      CleanRowsNonEmpty(init);
    }
  }

  /** Example: a row with an unparseable date next to one valid row leaves
      exactly one cleaned row and one missing date. */
  lemma UnparseableDateScenario(bad: RawRow, good: RawRow)
    requires bad.date.None? && good.date.Some?
    ensures CleanRows([bad, good]) == [CleanRowOf(good, good.date.value)]
    ensures MissingDates([bad, good]) == 1
  {
    assert [bad, good][..1] == [bad];
    assert [bad][..0] == [];
    assert CleanRows([bad]) == [];
    assert MissingDates([bad]) == 1;
  }
}
