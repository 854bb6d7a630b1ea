/** The filter engine of report.py (`apply_filters`): with filtering enabled it
    drops the rows whose fuel-mark code is in the fuel-mark exclusion list, then,
    from what is left, the rows whose station number is in the station exclusion
    list, and counts what each rule removed. */
module Filters {
  import opened Records

  /** The `FILTERS` settings: the enable flag and the two exclusion lists. */
  datatype FilterConfig = FilterConfig(enableFiltering: bool, excludeFuelMarks: seq<int>, excludeAzs: seq<int>)

  /** The two exclusion rules, in the order they run. */
  datatype Rule = FuelMarkRule | AzsRule

  /** The statistics dictionary; `initialCount` is `None` where the dictionary
      has no `initial_count` key (filtering disabled). */
  datatype FilterStats = FilterStats(filteredRows: nat, filteredFuel: nat, filteredAzs: nat, initialCount: Option<nat>)

  function RuleColumn(rule: Rule): Column {
    match rule
    case FuelMarkRule => FuelMarkCol
    case AzsRule => AzsNumberCol
  }

  /** The value of the rule's column after `pd.to_numeric(..., errors="coerce")`. */
  function Key(r: RawRow, rule: Rule): Option<real> {
    match rule
    case FuelMarkRule => r.fuelMark
    case AzsRule => r.azsNumber
  }

  /** `column.isin(codes)`: the coerced value equals one of the codes; NaN matches none. */
  predicate Excluded(r: RawRow, rule: Rule, codes: seq<int>) {
    Key(r, rule).Some? && exists i :: 0 <= i < |codes| && codes[i] as real == Key(r, rule).value
  }

  /** A rule runs only when its list is non-empty and the table has its column. */
  predicate Applies(columns: set<Column>, rule: Rule, codes: seq<int>) {
    |codes| > 0 && RuleColumn(rule) in columns
  }

  /** `rows[~mask]`: the rows the rule does not exclude, in their order. */
  function Exclude(rows: seq<RawRow>, rule: Rule, codes: seq<int>): (kept: seq<RawRow>)
    ensures |kept| <= |rows|
  {
    if rows == [] then []
    else
      var last := rows[|rows| - 1];
      Exclude(rows[..|rows| - 1], rule, codes) + (if Excluded(last, rule, codes) then [] else [last])
  }

  /** `mask.sum()`: how many rows the rule excludes. */
  function CountExcluded(rows: seq<RawRow>, rule: Rule, codes: seq<int>): nat {
    if rows == [] then 0
    else
      var last := rows[|rows| - 1];
      CountExcluded(rows[..|rows| - 1], rule, codes) + (if Excluded(last, rule, codes) then 1 else 0)
  }

  /** The table after one rule: narrowed when the rule applies, untouched otherwise. */
  function Narrow(t: Table, rule: Rule, codes: seq<int>): Table {
    if Applies(t.columns, rule, codes) then Table(t.columns, Exclude(t.rows, rule, codes)) else t
  }

  /** What one rule puts in its counter. */
  function Removed(t: Table, rule: Rule, codes: seq<int>): nat {
    if Applies(t.columns, rule, codes) then CountExcluded(t.rows, rule, codes) else 0
  }

  /** The table `apply_filters` returns. */
  function Filtered(t: Table, cfg: FilterConfig): Table {
    if !cfg.enableFiltering then t
    else Narrow(Narrow(t, FuelMarkRule, cfg.excludeFuelMarks), AzsRule, cfg.excludeAzs)
  }

  /** The statistics `apply_filters` returns. */
  function Stats(t: Table, cfg: FilterConfig): FilterStats {
    if !cfg.enableFiltering then FilterStats(0, 0, 0, None)
    else
      var afterFuel := Narrow(t, FuelMarkRule, cfg.excludeFuelMarks);
      var afterAzs := Narrow(afterFuel, AzsRule, cfg.excludeAzs);
      FilterStats(|t.rows| - |afterAzs.rows|,
                  Removed(t, FuelMarkRule, cfg.excludeFuelMarks),
                  Removed(afterFuel, AzsRule, cfg.excludeAzs),
                  Some(|t.rows|))
  }

  /** One rule's mask and narrowing (report.py:172-176, 193 and 205-209, 225). */
  method ExcludeMatching(rows: seq<RawRow>, rule: Rule, codes: seq<int>) returns (kept: seq<RawRow>, removed: nat)
    ensures kept == Exclude(rows, rule, codes)
    ensures removed == CountExcluded(rows, rule, codes)
  {
    kept, removed := [], 0;
    for i := 0 to |rows|
      invariant kept == Exclude(rows[..i], rule, codes)
      invariant removed == CountExcluded(rows[..i], rule, codes)
    {
      assert rows[..i + 1][..i] == rows[..i];
      if Excluded(rows[i], rule, codes) {
        removed := removed + 1;
      } else {
        kept := kept + [rows[i]];
      }
    }
    assert rows[..|rows|] == rows;
  }

  /** One rule of `apply_filters`: when its list is non-empty and the column is
      present, coerce, mask, count and narrow; otherwise leave the table alone. */
  method ApplyRule(t: Table, rule: Rule, codes: seq<int>) returns (narrowed: Table, removed: nat)
    ensures narrowed == Narrow(t, rule, codes)
    ensures removed == Removed(t, rule, codes)
  {
    narrowed, removed := t, 0;
    if |codes| > 0 && RuleColumn(rule) in t.columns {
      var kept;
      kept, removed := ExcludeMatching(t.rows, rule, codes);
      narrowed := t.(rows := kept);
    }
  }

  /** `apply_filters`. The source divides by the initial row count when it
      reports the share filtered out, so an enabled run needs a non-empty table. */
  method ApplyFilters(t: Table, cfg: FilterConfig) returns (filtered: Table, stats: FilterStats)
    requires cfg.enableFiltering ==> |t.rows| > 0
    ensures filtered == Filtered(t, cfg)
    ensures stats == Stats(t, cfg)
  {
    if !cfg.enableFiltering {
      return t, FilterStats(0, 0, 0, None);
    }
    var initialCount := |t.rows|;
    stats := FilterStats(0, 0, 0, Some(initialCount));
    var removed;
    filtered, removed := ApplyRule(t, FuelMarkRule, cfg.excludeFuelMarks);
    stats := stats.(filteredFuel := removed);
    filtered, removed := ApplyRule(filtered, AzsRule, cfg.excludeAzs);
    stats := stats.(filteredAzs := removed);
    stats := stats.(filteredRows := initialCount - |filtered.rows|);
  }

  // ---------------------------------------------------------------------
  // Properties of one rule

  /** A row survives a rule exactly when it is in the input and the rule does not exclude it. */
  lemma {:induction false} ExcludeKeepsExactly(rows: seq<RawRow>, rule: Rule, codes: seq<int>, x: RawRow)
    ensures x in Exclude(rows, rule, codes) <==> x in rows && !Excluded(x, rule, codes)
  {
    if rows != [] {
      var init := rows[..|rows| - 1];
      ExcludeKeepsExactly(init, rule, codes, x);
      assert rows == init + [rows[|rows| - 1]];
    }
  }

  /** The counter is the number of rows the rule removed. */
  lemma {:induction false} ExcludeCount(rows: seq<RawRow>, rule: Rule, codes: seq<int>)
    ensures |Exclude(rows, rule, codes)| + CountExcluded(rows, rule, codes) == |rows|
  {
    if rows != [] {
      ExcludeCount(rows[..|rows| - 1], rule, codes);
    }
  }

  /** Excluding works row by row: the survivors of `a + b` are the survivors of
      `a` followed by those of `b`, so survivors keep their relative order. */
  lemma {:induction false} ExcludeAppend(a: seq<RawRow>, b: seq<RawRow>, rule: Rule, codes: seq<int>)
    ensures Exclude(a + b, rule, codes) == Exclude(a, rule, codes) + Exclude(b, rule, codes)
  {
    if b == [] {
      assert a + b == a;
    } else {
      var init := b[..|b| - 1];
      ExcludeAppend(a, init, rule, codes);
      assert (a + b)[..|a + b| - 1] == a + init;
    }
  }

  /** An empty exclusion list removes nothing. */
  lemma {:induction false} EmptyListExcludesNothing(rows: seq<RawRow>, rule: Rule)
    ensures Exclude(rows, rule, []) == rows
    ensures CountExcluded(rows, rule, []) == 0
  {
    if rows != [] {
      EmptyListExcludesNothing(rows[..|rows| - 1], rule);
      assert rows == rows[..|rows| - 1] + [rows[|rows| - 1]];
    }
  }

  /** Applying a rule to its own output removes nothing more. */
  lemma {:induction false} ExcludeIdempotent(rows: seq<RawRow>, rule: Rule, codes: seq<int>)
    ensures Exclude(Exclude(rows, rule, codes), rule, codes) == Exclude(rows, rule, codes)
    ensures CountExcluded(Exclude(rows, rule, codes), rule, codes) == 0
  {
    if rows != [] {
      var init := rows[..|rows| - 1];
      var last := rows[|rows| - 1];
      ExcludeIdempotent(init, rule, codes);
      var tail := if Excluded(last, rule, codes) then [] else [last];
      ExcludeAppend(Exclude(init, rule, codes), tail, rule, codes);
      assert Exclude(tail, rule, codes) == tail by {
        if tail != [] { assert tail[..0] == []; }
      }
      CountAppend(Exclude(init, rule, codes), tail, rule, codes);
      assert CountExcluded(tail, rule, codes) == 0 by {
        if tail != [] { assert tail[..0] == []; }
      }
    }
  }

  lemma {:induction false} CountAppend(a: seq<RawRow>, b: seq<RawRow>, rule: Rule, codes: seq<int>)
    ensures CountExcluded(a + b, rule, codes) == CountExcluded(a, rule, codes) + CountExcluded(b, rule, codes)
  {
    if b == [] {
      assert a + b == a;
    } else {
      var init := b[..|b| - 1];
      CountAppend(a, init, rule, codes);
      assert (a + b)[..|a + b| - 1] == a + init;
    }
  }

  // ---------------------------------------------------------------------
  // Properties of apply_filters

  /** Filtering never adds, drops or renames columns. */
  lemma FilteredKeepsColumns(t: Table, cfg: FilterConfig)
    ensures Filtered(t, cfg).columns == t.columns
  {
  }

  /** Disabled filtering returns the input with zeroed counters and no initial count;
      enabled filtering with two empty lists also returns the input unchanged. */
  lemma DisabledOrEmptyListsChangeNothing(t: Table, cfg: FilterConfig)
    requires !cfg.enableFiltering || (cfg.excludeFuelMarks == [] && cfg.excludeAzs == [])
    ensures Filtered(t, cfg) == t
    ensures Stats(t, cfg).filteredRows == 0 && Stats(t, cfg).filteredFuel == 0 && Stats(t, cfg).filteredAzs == 0
    ensures Stats(t, cfg).initialCount.None? <==> !cfg.enableFiltering
  {
  }

  /** The station rule sees only the rows the fuel-mark rule kept, and the table
      `apply_filters` returns holds exactly the input rows that no applicable rule
      excludes. */
  lemma FilteredExactly(t: Table, cfg: FilterConfig, x: RawRow)
    requires cfg.enableFiltering
    ensures x in Filtered(t, cfg).rows <==>
              && x in t.rows
              && !(Applies(t.columns, FuelMarkRule, cfg.excludeFuelMarks) && Excluded(x, FuelMarkRule, cfg.excludeFuelMarks))
              && !(Applies(t.columns, AzsRule, cfg.excludeAzs) && Excluded(x, AzsRule, cfg.excludeAzs))
  {
    var t1 := Narrow(t, FuelMarkRule, cfg.excludeFuelMarks);
    if Applies(t.columns, FuelMarkRule, cfg.excludeFuelMarks) {
      ExcludeKeepsExactly(t.rows, FuelMarkRule, cfg.excludeFuelMarks, x);
    }
    if Applies(t1.columns, AzsRule, cfg.excludeAzs) {
      ExcludeKeepsExactly(t1.rows, AzsRule, cfg.excludeAzs, x);
    }
  }

  /** `filtered_rows` is both the shrinkage of the table and the sum of the two
      rule counters; `initial_count` is the input size. */
  lemma StatsBalance(t: Table, cfg: FilterConfig)
    requires cfg.enableFiltering
    ensures Stats(t, cfg).initialCount == Some(|t.rows|)
    ensures Stats(t, cfg).filteredRows == |t.rows| - |Filtered(t, cfg).rows|
    ensures Stats(t, cfg).filteredRows == Stats(t, cfg).filteredFuel + Stats(t, cfg).filteredAzs
  {
    var t1 := Narrow(t, FuelMarkRule, cfg.excludeFuelMarks);
    ExcludeCount(t.rows, FuelMarkRule, cfg.excludeFuelMarks);
    ExcludeCount(t1.rows, AzsRule, cfg.excludeAzs);
  }

  /** Filtering the result again removes nothing and leaves it as it is. */
  lemma FilterIdempotent(t: Table, cfg: FilterConfig)
    ensures Filtered(Filtered(t, cfg), cfg) == Filtered(t, cfg)
    ensures Stats(Filtered(t, cfg), cfg).filteredRows == 0
  {
    if cfg.enableFiltering {
      var marks, stations := cfg.excludeFuelMarks, cfg.excludeAzs;
      var t1 := Narrow(t, FuelMarkRule, marks);
      var t2 := Narrow(t1, AzsRule, stations);
      // the fuel-mark rule finds nothing left to exclude in t2
      assert Narrow(t2, FuelMarkRule, marks) == t2 by {
        if Applies(t.columns, FuelMarkRule, marks) {
          ExcludeIdempotent(t.rows, FuelMarkRule, marks);
          var fuelClean := Exclude(t.rows, FuelMarkRule, marks);
          assert t1.rows == fuelClean;
          if Applies(t1.columns, AzsRule, stations) {
            NothingToExcludeAfterNarrowing(fuelClean, FuelMarkRule, marks, AzsRule, stations);
          }
        } else {
          assert !Applies(t2.columns, FuelMarkRule, marks);
        }
      }
      if Applies(t1.columns, AzsRule, stations) {
        ExcludeIdempotent(t1.rows, AzsRule, stations);
      }
    }
  }

  /** When no row of `rows` is excluded by rule `r`, none of a narrowing of
      `rows` by another rule is either. */
  lemma {:induction false} NothingToExcludeAfterNarrowing(rows: seq<RawRow>, r: Rule, codes: seq<int>, s: Rule, other: seq<int>)
    requires Exclude(rows, r, codes) == rows
    ensures Exclude(Exclude(rows, s, other), r, codes) == Exclude(rows, s, other)
  {
    forall x | x in Exclude(rows, s, other)
      ensures !Excluded(x, r, codes)
    {
      ExcludeKeepsExactly(rows, s, other, x);
      ExcludeKeepsExactly(rows, r, codes, x);
    }
    ExcludeAll(Exclude(rows, s, other), r, codes);
  }

  /** A rule that excludes none of the rows returns them all. */
  lemma {:induction false} ExcludeAll(rows: seq<RawRow>, r: Rule, codes: seq<int>)
    requires forall x :: x in rows ==> !Excluded(x, r, codes)
    ensures Exclude(rows, r, codes) == rows
  {
    if rows != [] {
      ExcludeAll(rows[..|rows| - 1], r, codes);
      assert rows == rows[..|rows| - 1] + [rows[|rows| - 1]];
    }
  }

  /** The rules narrow one after the other: a row both rules would exclude is
      counted once, under the fuel-mark rule, so the two counters together count
      the rows that either rule excludes. */
  lemma {:induction false} SequentialCountsNoOverlap(rows: seq<RawRow>, marks: seq<int>, stations: seq<int>)
    ensures CountExcluded(rows, FuelMarkRule, marks) + CountExcluded(Exclude(rows, FuelMarkRule, marks), AzsRule, stations)
            == CountEither(rows, marks, stations)
  {
    if rows != [] {
      var init := rows[..|rows| - 1];
      var last := rows[|rows| - 1];
      SequentialCountsNoOverlap(init, marks, stations);
      var tail := if Excluded(last, FuelMarkRule, marks) then [] else [last];
      CountAppend(Exclude(init, FuelMarkRule, marks), tail, AzsRule, stations);
      if tail != [] { assert tail[..0] == []; }
    }
  }

  /** The number of rows excluded by the fuel-mark rule or by the station rule. */
  function CountEither(rows: seq<RawRow>, marks: seq<int>, stations: seq<int>): nat {
    if rows == [] then 0
    else
      var last := rows[|rows| - 1];
      CountEither(rows[..|rows| - 1], marks, stations)
        + (if Excluded(last, FuelMarkRule, marks) || Excluded(last, AzsRule, stations) then 1 else 0)
  }

  /** Example: with fuel mark 14 excluded, a row carrying mark 14 is
      dropped and `filtered_fuel` is 1. */
  lemma FuelMarkScenario(row: RawRow, other: RawRow)
    requires row.fuelMark == Some(14.0) && row.bonusPlus == Some(5.0)
    requires other.fuelMark == Some(15.0)
    ensures var t := Table({DateCol, BonusPlusCol, BonusMinusCol, LitersCol, ReasonCol, FuelMarkCol}, [row, other]);
            var cfg := FilterConfig(true, [14], []);
            Filtered(t, cfg).rows == [other] && Stats(t, cfg) == FilterStats(1, 1, 0, Some(2))
  {
    var rows := [row, other];
    assert [14][0] as real == 14.0;
    assert Excluded(row, FuelMarkRule, [14]);
    assert !Excluded(other, FuelMarkRule, [14]);
    assert rows[..1] == [row];
    assert [row][..0] == [];
    assert Exclude([row], FuelMarkRule, [14]) == [];
    assert Exclude(rows, FuelMarkRule, [14]) == [other];
    assert CountExcluded([row], FuelMarkRule, [14]) == 1;
    assert CountExcluded(rows, FuelMarkRule, [14]) == 1;
  }
}
