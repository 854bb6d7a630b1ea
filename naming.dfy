/** The sheet name both `get_sheet_name_from_data` variants build from the
    labels of the first and the last period of a report, within the
    31-character limit a spreadsheet puts on sheet names. */
module Naming {
  import opened Text
  import opened Records

  /** The name used when there is no period to name the sheet after. */
  const DefaultSheetName: string := "Отчет"

  /** The longest sheet name a workbook accepts. */
  const MaxSheetNameLength: nat := 31

  /** "Отчет за {first} - {last}". */
  function FullName(first: string, last: string): string {
    "Отчет за " + first + " - " + last
  }

  /** The two labels have the words the abbreviation picks out; otherwise
      `split()[0]` or `split()[1]` raises. */
  predicate Abbreviable(first: string, last: string) {
    |Split(first)| >= 1 && |Split(last)| >= 2
  }

  /** "{first month[:3]}-{last month[:3]} {last year}". */
  function Abbreviation(first: string, last: string): string
    requires Abbreviable(first, last)
  {
    Take(Split(first)[0], 3) + "-" + Take(Split(last)[0], 3) + " " + Split(last)[1]
  }

  /** The sheet name for a report running from label `first` to label `last`:
      the full name, or its abbreviation when the full name is too long. */
  function NameFor(first: string, last: string): string
    requires |FullName(first, last)| > MaxSheetNameLength ==> Abbreviable(first, last)
  {
    var full := FullName(first, last);
    if |full| > MaxSheetNameLength then Abbreviation(first, last) else full
  }

  /** The full name is 12 characters longer than the two labels together. */
  lemma FullNameLength(first: string, last: string)
    ensures |FullName(first, last)| == 12 + |first| + |last|
  {
  }

  /** A period label is two words, the month name and the four-digit year, so
      the split the abbreviation relies on always succeeds. */
  lemma LabelWords(p: Period, names: MonthNames)
    requires SingleWordNames(names)
    ensures Split(Label(p, names)) == [names[p.month - 1], DecimalString(p.year)]
    ensures |Label(p, names)| == |names[p.month - 1]| + 5
  {
    DecimalStringIsWord(p.year);
    DecimalStringOfFourDigits(p.year);
    SplitTwoWords(names[p.month - 1], DecimalString(p.year));
  }

  /** The name `NameFor` gives a report from period `p` to period `q`. */
  function PeriodsName(p: Period, q: Period, names: MonthNames): string
    requires SingleWordNames(names)
  {
    LabelWords(p, names);
    LabelWords(q, names);
    FullNameLength(Label(p, names), Label(q, names));
    NameFor(Label(p, names), Label(q, names))
  }

  /** The name for a report from period `p` to period `q`: the full name when
      the two month names have at most 9 characters together, otherwise the
      first three letters of each month name and the year of `q`. Either way
      it fits the 31-character limit. */
  lemma NameForPeriods(p: Period, q: Period, names: MonthNames)
    requires SingleWordNames(names)
    ensures var a, b := names[p.month - 1], names[q.month - 1];
      && (|a| + |b| <= 9 ==> PeriodsName(p, q, names) == FullName(Label(p, names), Label(q, names)))
      && (|a| + |b| > 9 ==> PeriodsName(p, q, names) == Take(a, 3) + "-" + Take(b, 3) + " " + DecimalString(q.year))
      && |PeriodsName(p, q, names)| <= MaxSheetNameLength
  {
    LabelWords(p, names);
    LabelWords(q, names);
    FullNameLength(Label(p, names), Label(q, names));
    DecimalStringOfFourDigits(q.year);
  }

  /** The abbreviated name keeps the year of the last period only: a report
      from January 2024 and one from January 2025, both ending in December
      2025, get the same name. */
  lemma AbbreviationDropsFirstYear(names: MonthNames)
    requires SingleWordNames(names)
    requires |names[0]| + |names[11]| > 9
    ensures PeriodsName(Period(2024, 1), Period(2025, 12), names) == PeriodsName(Period(2025, 1), Period(2025, 12), names)
  {
    NameForPeriods(Period(2024, 1), Period(2025, 12), names);
    NameForPeriods(Period(2025, 1), Period(2025, 12), names);
  }

  /** The rendering of a year by its digits. */
  lemma YearDigits(y: nat)
    requires 1000 <= y < 10000
    ensures DecimalString(y) == [DigitChar(y / 1000), DigitChar(y / 100 % 10), DigitChar(y / 10 % 10), DigitChar(y % 10)]
  {
    assert DecimalString(y / 1000) == [DigitChar(y / 1000)];
    assert DecimalString(y / 100) == [DigitChar(y / 1000), DigitChar(y / 100 % 10)] by { assert (y / 100) / 10 == y / 1000; }
    assert DecimalString(y / 10) == [DigitChar(y / 1000), DigitChar(y / 100 % 10), DigitChar(y / 10 % 10)] by {
      assert (y / 10) / 10 == y / 100;
      assert (y / 10) % 10 == y / 10 % 10;
    }
  }

  lemma JanDecText(names: MonthNames)
    requires names[0] == "January" && names[11] == "December"
    ensures Take(names[0], 3) + "-" + Take(names[11], 3) + " " + DecimalString(2025) == "Jan-Dec 2025"
  {
    YearDigits(2025);
  }

  lemma MayJuneText(names: MonthNames)
    requires names[4] == "May" && names[5] == "June"
    ensures Label(Period(2024, 5), names) == "May 2024"
    ensures Label(Period(2024, 6), names) == "June 2024"
  {
    YearDigits(2024);
  }

  /** With month names "January" and "December", January 2024 to December 2025
      is too long for the full name and becomes "Jan-Dec 2025". */
  lemma AbbreviationScenario(names: MonthNames)
    requires SingleWordNames(names)
    requires names[0] == "January" && names[11] == "December"
    ensures PeriodsName(Period(2024, 1), Period(2025, 12), names) == "Jan-Dec 2025"
  {
    NameForPeriods(Period(2024, 1), Period(2025, 12), names);
    JanDecText(names);
  }

  /** With month names "May" and "June", May 2024 to June 2024 fits and keeps
      the full name "Отчет за May 2024 - June 2024". */
  lemma FullNameScenario(names: MonthNames)
    requires SingleWordNames(names)
    requires names[4] == "May" && names[5] == "June"
    ensures PeriodsName(Period(2024, 5), Period(2024, 6), names) == FullName("May 2024", "June 2024")
  {
    NameForPeriods(Period(2024, 5), Period(2024, 6), names);
    MayJuneText(names);
  }
}
