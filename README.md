# Monthly bonus report — a Dafny model

This project models the core of a script that turns a loyalty-programme
transaction export into a monthly bonus report. The script takes the
concatenated transaction table and runs four steps:

1. **Filter.** `apply_filters` drops the rows whose fuel mark or station
   number is on an exclusion list. It also counts how many rows each rule
   removed.
2. **Clean.** `validate_and_clean_data` refuses a table that lacks a
   required column. It drops the rows whose date did not parse, turns
   non-numeric amounts into 0, strips the reason text and gives every row
   the month it belongs to.
3. **Aggregate.** `calculate_report` groups the cleaned rows by month into
   one report row per period, with these columns:
   - credits accrued (positive `bonus_plus` only);
   - litres sold with a credit;
   - litres sold in total;
   - bonuses redeemed (the debits, as a positive amount);
   - credits per litre.
4. **Name the sheet.** `get_sheet_name_from_data` names the sheet
   "Отчет за {first} - {last}". When that name is longer than the
   31-character limit on sheet names, it uses the abbreviation
   "{Mon}-{Mon} {year}" instead.

There are two variants of the script:

- `report.py` is the current one.
- `old/report_final.py` is the older one. Its cleaning step is the same.
  Its report also ends with an "ИТОГО" row holding the column totals, and
  its sheet namer skips that row.

Modules:

- `Text`: Python's `str.strip`, `str.split` and the decimal rendering of a
  year, written as sequence functions.
- `Records`: the table and its rows, periods, month labels and the report row.
- `Filters`: `apply_filters`. The spec functions are `Exclude`, `Narrow`,
  `Filtered` and `Stats`; the loop methods are `ExcludeMatching`,
  `ApplyRule` and `ApplyFilters`.
- `Cleaning`: `validate_and_clean_data`, shared by both variants.
  `CleanRows` is the spec and `ValidateAndClean` is the loop.
- `Aggregation`: the per-period part of `calculate_report`, shared by both
  variants. `Report` is the spec. `GroupSum` is the group-by loop and
  `CalculateReport` assembles the report from it.
- `Naming`: the sheet name built from a first and a last period label.
- `ReportScript`: `report.py`'s sheet namer and its pipeline from the
  table to the report and its sheet name.
- `ReportFinal`: `old/report_final.py`'s total row and its sheet namer.

Amounts are exact reals. A date that failed to parse is `None`. Month
names are a parameter, because the source takes them from the
locale-dependent `strftime("%B")`.

## Model

| member | source | states |
|---|---|---|
| Filters.ExcludeMatching | report.py:172-176 | the loop keeps exactly `Exclude(rows, rule, codes)`, in order, and counts `CountExcluded` rows removed |
| Filters.ApplyRule | report.py:167-197 | one rule: when the list is non-empty and the column exists, the rows whose code is listed are removed and counted; otherwise nothing changes and the count is 0 |
| Filters.ApplyFilters | report.py:142-241 | the fuel-mark rule, then the station rule on what is left; the result is `Filtered(t, cfg)` with statistics `Stats(t, cfg)`; disabled filtering returns the table untouched with zero counters and no `initial_count` |
| Filters.ExcludeKeepsExactly | report.py:175-193 | a row survives a rule iff it was in the input and its code is not on the list (`isin` on the coerced number) |
| Filters.ExcludeCount | report.py:176-193 | kept rows plus counted rows equal the input rows |
| Filters.ExcludeAppend | report.py:193 | excluding works row by row, so it keeps the order of the rows |
| Filters.ExcludeIdempotent | report.py:193 | excluding twice with the same list changes nothing more, and the second pass counts 0 |
| Filters.DisabledOrEmptyListsChangeNothing | report.py:147-229 | with filtering off, or both lists empty, the table is unchanged and every counter is 0; `initial_count` is present iff filtering is on |
| Filters.FilteredExactly | report.py:167-229 | a row is in the filtered table iff it is an input row that no applicable rule excludes |
| Filters.StatsBalance | report.py:155-232 | `initial_count` is the input size, and `filtered_rows` is both the shrinkage of the table and `filtered_fuel + filtered_azs` |
| Filters.FilterIdempotent | report.py:142-241 | filtering an already filtered table changes nothing and removes 0 rows |
| Filters.NothingToExcludeAfterNarrowing | report.py:193-225 | a rule with nothing to remove still has nothing to remove after the other rule narrowed the table |
| Filters.ExcludeAll | report.py:193 | when no row matches the list, the rule keeps every row |
| Filters.SequentialCountsNoOverlap | report.py:176-209 | the station rule counts only rows the fuel-mark rule kept, so the two counters together count each row that either rule excludes once |
| Filters.FuelMarkScenario | report.py:167-197 | with mark 14 excluded, the row with mark 14 is dropped: statistics (1, 1, 0, initial 2) |
| Records.CellText | report.py:271 | the text `astype(str)` gives a cell: an empty cell is NaN and reads "nan"; the cleaned reason of an empty cell is therefore "nan", as Cleaning.CleanRowOfWellFormed states |
| Text.Strip | report.py:271 | the stripped reason begins and ends with a non-whitespace character, or is empty |
| Text.StripRemovesOnlySpace | report.py:271 | the stripped text is a contiguous piece of the original, and only whitespace is removed around it |
| Text.StripIdempotent | report.py:271 | stripping twice is stripping once |
| Text.SplitTwoWords | report.py:386-388 | `split()` of "{word} {word}" is the two words |
| Cleaning.ValidateAndClean | report.py:243-282 | no table when a required column is missing; otherwise exactly `CleanRows(t.rows)` and the number of unparseable dates |
| Cleaning.CleanRowsCount | report.py:258-263 | every row is either kept or counted as a missing date |
| Cleaning.CleanRowsAppend | report.py:263 | cleaning works row by row and keeps the input order |
| Cleaning.CleanRowsExactly | report.py:255-274 | a row is in the cleaned table iff it is the cleaned form of an input row whose date parsed |
| Cleaning.CleanRowOfWellFormed | report.py:266-274 | a cleaned row has a stripped reason and the period of its date's month, an empty reason cell becomes "nan", and a non-numeric amount becomes 0 |
| Cleaning.CleanRowsWellFormed | old/report_final.py:107-146 | every row of the cleaned table is well formed (both variants clean identically) |
| Cleaning.CleanRowsNonEmpty | report.py:263-278 | with at least one parsed date, the cleaned table is not empty |
| Cleaning.UnparseableDateScenario | report.py:255-263 | one unparseable and one valid date leave one row and one missing date |
| Aggregation.ReportKeys | report.py:326-336 | the report index: the periods with a positive credit, or, when there are none, every period of the table, because the empty grouped frame adopts the index of the litres series assigned to it; characterised by Aggregation.ReportPeriods |
| Aggregation.Report | report.py:314-364 | one row per report period, in ascending order; characterised by Aggregation.ReportPeriods, Aggregation.ReportRowFigures and Aggregation.ReportColumnTotals |
| Aggregation.Insert | report.py:326 | inserting a period into an ascending key list keeps it ascending, with exactly the old keys and the new one |
| Aggregation.GroupKeys | report.py:326 | the group keys are strictly ascending, and a period is a key iff some row of the subset falls in it |
| Aggregation.Rate | report.py:349-353 | the rate is 0 when no litre was sold with a credit, and otherwise rate times litres is the credit |
| Aggregation.GroupSum | report.py:326-336 | the group-by loop: every period's sum equals `PeriodSum`, and the keys are the ascending periods of the subset |
| Aggregation.AssembleRows | report.py:335-353 | from the four per-period sums, the report rows are `RowsFor(keys)`: litres, absolute debits (0 without any debit row), `fillna(0)`, rate |
| Aggregation.CalculateReport | report.py:314-364 | `calculate_report` computes exactly `Report(rows, names)` |
| Aggregation.KeysIffRows | report.py:339 | a subset has no group key iff no row belongs to it |
| Aggregation.SumSigns | report.py:322-323 | credits from positive rows never sum below 0, and debits from negative rows never sum above 0 |
| Aggregation.AscendingEnds | report.py:380-381 | the first key is the earliest period and the last key the latest |
| Aggregation.ReportPeriods | report.py:326-336 | the report periods are ascending; they are the periods with a positive credit, or every period of the table when no row has one |
| Aggregation.RowForFigures | report.py:326-359 | a period's row carries its month label, its positive credits and their litres, all its litres, its debits as a non-negative amount (0 without a debit row), and the guarded rate |
| Aggregation.ReportRowFigures | report.py:326-362 | row j of the report is the row of the j-th period; accrued is positive when some row has a credit, and 0 with 0 litres and rate 0 when none has |
| Aggregation.ReportNonEmpty | report.py:493-497 | a non-empty cleaned table always gives a non-empty report |
| Aggregation.SumInUnion | report.py:326 | the sum over two disjoint period sets is the sum of the two sums |
| Aggregation.KeysSumIsSumIn | report.py:326 | adding the per-period sums over ascending keys is the sum over the set of those periods |
| Aggregation.SumInCovering | report.py:326 | when every row of the subset falls in the period set, the sum over that set is the sum over the whole table |
| Aggregation.ColumnSumsOfRowsFor | report.py:326-346 | each report column adds up to the sum of its measure over the report's periods |
| Aggregation.ColumnTotals | report.py:326-346 | when the keys cover every positive row, credits and litres-with-credit add up to the table totals |
| Aggregation.ReportColumnTotals | report.py:314-364 | the report's credit columns add up to the table totals; litres and debits add up over the report's periods only |
| Aggregation.CreditlessPeriodDropped | report.py:326-336 | as written: a creditless February disappears, so the litres column adds up to 5 where the table holds 8 |
| Aggregation.AllPeriodsKeepTotals | report.py:335-343 | corrected: over every period, all four columns add up to the totals of the whole table |
| Aggregation.JanuaryScenario | report.py:314-364 | two January rows (10 credits on 5 L; 3 L with a debit of 2) give the row (10, 5, 8, 2, rate 2) |
| Naming.Abbreviation | report.py:386-389 | "{first month[:3]}-{last month[:3]} {last year}" from the words of the two labels; characterised by Naming.NameForPeriods |
| Naming.NameFor | report.py:383-389 | the full name "Отчет за {first} - {last}", or its abbreviation when it is longer than 31 characters; characterised by Naming.NameForPeriods |
| Naming.FullNameLength | report.py:383 | the full name is 12 characters longer than the two labels together |
| Naming.LabelWords | report.py:356-388 | a period label is two words, the month name and the four-digit year, so `split()[1]` exists |
| Naming.NameForPeriods | report.py:383-389 | the full name iff the two month names have at most 9 characters together, else "{first 3}-{first 3} {last year}"; always at most 31 characters |
| Naming.AbbreviationDropsFirstYear | report.py:385-389 | the abbreviation keeps only the last year, so January 2024 and January 2025 to December 2025 get the same name |
| Naming.AbbreviationScenario | report.py:385-389 | January 2024 to December 2025 becomes "Jan-Dec 2025" |
| Naming.FullNameScenario | report.py:383-385 | May 2024 to June 2024 keeps "Отчет за May 2024 - June 2024" |
| ReportScript.SheetName | report.py:366-391 | "Отчет" for an empty report, otherwise the name built from the labels of row 0 and of the last row; characterised by ReportScript.SheetNameOfReport |
| ReportScript.SheetNameOfReport | report.py:366-391 | the sheet of a non-empty report is named after its earliest and latest periods, and the name fits in 31 characters |
| ReportScript.RunOutcome | report.py:493-502 | a run ends without data iff a required column is missing; otherwise the report comes from the cleaned filtered rows, is not empty, and its sheet name is built from the first and last periods within the limit |
| ReportScript.RunReport | report.py:493-502 | the pipeline returns the filter statistics and the outcome `Run(t, cfg, names)` |
| ReportScript.UnfilteredReport | report.py:147-149 | with filtering off or with empty lists, the report input is the cleaned unfiltered table and nothing is counted as filtered |
| ReportFinal.TotalRow | old/report_final.py:226-235 | the "ИТОГО" row: each amount column summed over the period rows, and the rate of the two summed credit columns; characterised by ReportFinal.TotalFigures and ReportFinal.TotalRate |
| ReportFinal.ReportWithTotal | old/report_final.py:175-239 | the period report with the total row appended; characterised by ReportFinal.TotalRowLastAndOnly |
| ReportFinal.CalculateReportWithTotal | old/report_final.py:175-239 | the period report followed by a total row whose four columns are summed in one pass |
| ReportFinal.LabelIsNotTotal | old/report_final.py:217-228 | no period label equals "ИТОГО" |
| ReportFinal.TotalRowLastAndOnly | old/report_final.py:226-237 | the last row, and only the last row, is labelled "ИТОГО"; the rows before it are the period report unchanged |
| ReportFinal.TotalFigures | old/report_final.py:227-232 | the total row holds every positive credit and its litres, the litres and debits of the report's periods, and a non-negative redemption total |
| ReportFinal.TotalRate | old/report_final.py:233-234 | the total rate is the ratio of the credit and litre totals, 0 when no litre carried a credit |
| ReportFinal.TotalRateNotSumOfRates | old/report_final.py:233-234 | the total rate is not the sum of the period rates: (10 on 5 L, 3 on 1 L) gives 13/6, not 5 |
| ReportFinal.SheetName | old/report_final.py:241-261 | the intended namer: "Отчет" for at most one row, otherwise the name built from the labels of row 0 and of the row before the total; characterised by ReportFinal.SheetNameSkipsTotal |
| ReportFinal.SheetNameSkipsTotal | old/report_final.py:241-261 | corrected: the total row never enters the name; for a non-empty cleaned table the name is built from the earliest and latest periods, within 31 characters |
| ReportFinal.PeriodColumnAsWritten | old/report_final.py:224-237 | as written: the "Период" column has NaN on every period row and "ИТОГО" on the total row, because the rename finds no column "index" |
| ReportFinal.SheetNameAsWritten | old/report_final.py:241-261 | as written: the namer reads that "Период" column |
| ReportFinal.PeriodsNameEndsInDigit | report.py:383-389 | a name built from two periods, full or abbreviated, ends with the last digit of a year |
| ReportFinal.NanSheetNameOf | old/report_final.py:249-252 | as written: a report with a period row gets the sheet name "Отчет за nan - nan" |
| ReportFinal.NanSheetName | old/report_final.py:224-252 | as written: every non-empty table gets "Отчет за nan - nan", which is never the name built from its periods |
| ReportFinal.EmptyTableOnlyTotal | old/report_final.py:245-246 | an empty cleaned table gives only a zero total row and the default sheet name "Отчет" |

## Left out

- File discovery, Excel loading, column mapping and the concatenation of
  several files (`report.py` before line 142, and `load_and_process_data`
  before line 306). These are I/O. The model starts from one `Table`.
- Day-first date parsing (`pd.to_datetime(..., dayfirst=True, errors="coerce")`).
  It is modelled as the row's `Option<Date>`; a string parser is not part of
  this model.
- Locale month names (`strftime("%B")`, and the `locale` fallback in the old
  script). They are a `MonthNames` parameter. The naming lemmas require
  single-word names, as every locale in use supplies.
- Console output: the per-code statistics loops, the summaries and the
  progress messages. The per-code loops (report.py:185-190 and 217-222) also
  sum the raw `bonus_plus` and `liters` of the excluded rows before those
  columns are coerced (report.py:268), and format the sums with `:,.2f`. A
  text cell in an excluded row makes that sum or that format raise, and the
  run ends in the handler at report.py:580. That crash is not modelled:
  Filters.ApplyFilters filters and counts such a row like any other.
- Excel writing and formatting, the backup copy, opening the file, and the
  raw-data sample sheet. These are I/O.
- Floating-point rounding and NaN arithmetic. Amounts are exact reals, and
  a non-numeric cell is `None`, which becomes 0 as `fillna(0)` does.
- The in-place `pd.to_numeric` coercion of `fuel_mark` and `azs_number`
  (report.py:172, 205). Raw rows already hold the coerced `Option<real>`,
  so a non-numeric code is `None` and never matches a list.
- pandas column-name plumbing other than the old script's "Период" column,
  which is a finding below. ReportFinal.SheetName reads the labels as the
  script intends; ReportFinal.SheetNameAsWritten reads the column the
  script actually builds.
- Filters.ApplyFilters: requires a non-empty table when filtering is on,
  because report.py:237 divides by `initial_count` and would fail on an
  empty table.
- Cleaning.ValidateAndClean: requires some parsed date when the columns are
  present, because report.py:278 formats the earliest date and fails when
  every date is missing.
- Naming.NameFor: requires the words the abbreviation picks out, because
  `split()[1]` at report.py:388 raises on a one-word label. For real labels
  this always holds (Naming.LabelWords).
- ReportScript.RunReport: main's "report is empty" exit (report.py:494-497)
  is not a branch, because it is never taken (Aggregation.ReportNonEmpty).
- Aggregation.Report: when no row has a positive credit, the report has one
  row for every period of the table, with accrued 0. That is because pandas
  gives the empty grouped frame the index of the litres series assigned to
  it. The model follows the code here, not the simpler reading "one row per
  period with a credit".
- The old script's own `main` and loading pipeline are not modelled
  separately. They differ from report.py only in I/O and messages, and have
  no filtering step.

## Findings

| source | as written | input that shows it | evidently intended | confidence | as-written member | corrected member |
|---|---|---|---|---|---|---|
| report.py:326-336 (also old/report_final.py:187-197) | the report is grouped from the rows with a positive credit, and the litres and debits of other periods are attached only to those periods, so a period without any credit is dropped when some other period has one | January: credit 10 on 5 L; February: no credit, 3 L. The report has one row, and its litres-total column adds up to 5, while the table holds 8 | every period appears, so "litres sold in total" and "bonuses redeemed" lose nothing | not executed | Aggregation.CreditlessPeriodDropped | Aggregation.AllPeriodsKeepTotals |
| old/report_final.py:224-252 | `rename(columns={"index": "Период"})` finds no column "index": the labels stay in the column "period", which keeps its name through `strftime`. The concat with the total row then creates "Период", NaN on every period row, and the namer reads NaN from it | any non-empty cleaned table; the report of one January row is named "Отчет за nan - nan" | the sheet is named after the first and the last period, skipping the total row | not executed | ReportFinal.NanSheetName | ReportFinal.SheetNameSkipsTotal |

The pipeline members (`Aggregation.CalculateReport`, `ReportScript.RunReport`,
`ReportFinal.CalculateReportWithTotal`) model the code as written.
`Aggregation.ReportAllPeriods` is the corrected report: one row for every
period of the table, built with the same `RowsFor`. For the old script's
sheet name, `ReportFinal.SheetName` is the corrected namer and
`ReportFinal.SheetNameAsWritten` the namer as written.
