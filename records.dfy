/** The tables and rows that flow through the monthly bonus-report pipeline:
    the raw rows loaded from the spreadsheet exports, the cleaned rows, and
    the rows of the finished report. */
module Records {
  import opened Text

  datatype Option<T> = None | Some(value: T)

  /** The text of a text cell, as `astype(str)` or an f-string renders it: an
      empty cell is NaN, whose text is "nan". */
  function CellText(v: Option<string>): string {
    match v
    case Some(s) => s
    case None => "nan"
  }

  type Month = m: int | 1 <= m <= 12 witness 1

  /** The years a pandas timestamp can hold (1677 to 2262). */
  type Year = y: int | 1677 <= y <= 2262 witness 2000

  /** A timestamp as `pd.to_datetime(..., dayfirst=True)` yields it. Only its
      year and month matter to the report; `day` and `secondOfDay` stand for
      the rest of the timestamp, which only the printed date range reads. */
  datatype Date = Date(year: Year, month: Month, day: int, secondOfDay: int)

  /** A calendar month, standing for its first day: the grouping key of the report. */
  datatype Period = Period(year: Year, month: Month)

  /** `date.dt.to_period("M").dt.to_timestamp()`: the first day of the month of `d`. */
  function PeriodOf(d: Date): Period {
    Period(d.year, d.month)
  }

  /** Chronological order of periods, the order `groupby("period")` sorts its keys in. */
  predicate Before(p: Period, q: Period) {
    p.year < q.year || (p.year == q.year && p.month < q.month)
  }

  /** The canonical columns after the source columns are renamed. */
  datatype Column =
    | DateCol | BonusPlusCol | BonusMinusCol | LitersCol | ReasonCol | AzsNumberCol | FuelMarkCol

  /** One loaded row. A numeric cell holds the value `pd.to_numeric(..., errors="coerce")`
      gives it, `None` when that is NaN; `date` holds the parsed timestamp, `None` when
      it does not parse; `reason` is `None` for an empty cell. */
  datatype RawRow = RawRow(
    date: Option<Date>,
    bonusPlus: Option<real>,
    bonusMinus: Option<real>,
    liters: Option<real>,
    reason: Option<string>,
    azsNumber: Option<real>,
    fuelMark: Option<real>)

  /** The concatenated table: which canonical columns it has, and its rows in order. */
  datatype Table = Table(columns: set<Column>, rows: seq<RawRow>)

  /** A row of the cleaned table: a valid date, numeric amounts, a trimmed reason
      and the derived period. */
  datatype CleanRow = CleanRow(
    date: Date,
    bonusPlus: real,
    bonusMinus: real,
    liters: real,
    reason: string,
    azsNumber: Option<real>,
    fuelMark: Option<real>,
    period: Period)

  /** One row of the report: the period label and the five figures, in the
      column order of the output sheet. */
  datatype ReportRow = ReportRow(
    periodLabel: string,
    accrued: real,
    litersWithBonus: real,
    litersTotal: real,
    redeemed: real,
    rate: real)

  /** The twelve month names of the `LC_TIME` locale, as `strftime("%B")` renders them. */
  type MonthNames = names: seq<string> | |names| == 12
    witness ["January", "February", "March", "April", "May", "June", "July",
             "August", "September", "October", "November", "December"]

  /** `strftime("%B %Y")` of the first day of period `p`. */
  function Label(p: Period, names: MonthNames): string {
    names[p.month - 1] + " " + DecimalString(p.year)
  }

  /** Every month name is one word, as `%B` renders it in the locales the scripts try. */
  predicate SingleWordNames(names: MonthNames) {
    forall m :: 0 <= m < 12 ==> names[m] != [] && NoSpace(names[m])
  }
}
