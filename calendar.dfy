/** Calendar months and the `YYYY-MM` / `YYYY-MM-DD` text forms that the
    source obtains from `toISOString()`. A month is a (year, month) pair;
    month arithmetic is done on the month index `12 * year + month - 1`. */
module Calendar {
  import opened Text

  /** A calendar month; `month` is 1-based (January is 1). */
  datatype YearMonth = YearMonth(year: int, month: int)

  /** The months whose ISO form has a four-digit year. */
  predicate ValidMonth(ym: YearMonth)
  {
    0 <= ym.year <= 9999 && 1 <= ym.month <= 12
  }

  /** Months counted from January of year 0. */
  function MonthIndex(ym: YearMonth): int
  {
    ym.year * 12 + (ym.month - 1)
  }

  /** The month before `ym`. */
  function PrevMonth(ym: YearMonth): (r: YearMonth)
    requires 1 <= ym.month <= 12
    ensures MonthIndex(r) == MonthIndex(ym) - 1
    ensures 1 <= r.month <= 12
  {
    if ym.month == 1 then YearMonth(ym.year - 1, 12) else YearMonth(ym.year, ym.month - 1)
  }

  /** The month after `ym`: where a day past the month's end rolls over to. */
  function NextMonth(ym: YearMonth): (r: YearMonth)
    requires 1 <= ym.month <= 12
    ensures MonthIndex(r) == MonthIndex(ym) + 1
    ensures 1 <= r.month <= 12
  {
    if ym.month == 12 then YearMonth(ym.year + 1, 1) else YearMonth(ym.year, ym.month + 1)
  }

  /** The month `i` months before `ym`, borrowing from the year as needed
      (`setMonth(getMonth() - i)` without the day). */
  function MonthsBefore(ym: YearMonth, i: nat): (r: YearMonth)
    requires 1 <= ym.month <= 12
    ensures MonthIndex(r) == MonthIndex(ym) - i
    ensures 1 <= r.month <= 12
  {
    if i == 0 then ym else PrevMonth(MonthsBefore(ym, i - 1))
  }

  /** Two months with 1-based months are equal exactly when their indices are. */
  lemma MonthIndexInjective(a: YearMonth, b: YearMonth)
    requires 1 <= a.month <= 12 && 1 <= b.month <= 12
    requires MonthIndex(a) == MonthIndex(b)
    ensures a == b
  {
  }

  /** `YYYY-MM`, as `toISOString().slice(0, 7)` prints a date of this month. */
  function MonthKey(ym: YearMonth): (key: string)
    requires ValidMonth(ym)
    ensures |key| == 7 && key[4] == '-'
  {
    PadDigits(ym.year, 4) + "-" + PadDigits(ym.month, 2)
  }

  /** Different months have different keys. */
  lemma MonthKeyInjective(a: YearMonth, b: YearMonth)
    requires ValidMonth(a) && ValidMonth(b)
    requires MonthKey(a) == MonthKey(b)
    ensures a == b
  {
    assert Pow10(2) == 100 && Pow10(4) == 10000;
    assert MonthKey(a)[..4] == PadDigits(a.year, 4);
    assert MonthKey(b)[..4] == PadDigits(b.year, 4);
    assert MonthKey(a)[5..] == PadDigits(a.month, 2);
    assert MonthKey(b)[5..] == PadDigits(b.month, 2);
    PadDigitsInjective(a.year, b.year, 4);
    PadDigitsInjective(a.month, b.month, 2);
  }

  /** `YYYY-MM-DD` for day `day` of month `ym`. */
  function DayDate(ym: YearMonth, day: int): (date: string)
    requires ValidMonth(ym) && 1 <= day <= 31
    ensures |date| == 10
    ensures StartsWith(date, MonthKey(ym))
    ensures Take(date, 7) == MonthKey(ym)
  {
    var r := MonthKey(ym) + "-" + PadDigits(day, 2);
    assert r[..7] == MonthKey(ym);
    r
  }

  /** `toLocaleString('default', { month: 'short' })` in an English locale. */
  function ShortMonthName(month: int): string
    requires 1 <= month <= 12
  {
    ["Jan", "Feb", "Mar", "Apr", "May", "Jun", "Jul", "Aug", "Sep", "Oct", "Nov", "Dec"][month - 1]
  }

  predicate IsLeapYear(year: int)
  {
    year % 4 == 0 && (year % 100 != 0 || year % 400 == 0)
  }

  /** Days in a month of the proleptic Gregorian calendar used by `Date`. */
  function DaysInMonth(ym: YearMonth): (n: int)
    requires 1 <= ym.month <= 12
    ensures 28 <= n <= 31
  {
    if ym.month == 2 then (if IsLeapYear(ym.year) then 29 else 28)
    else if ym.month in {4, 6, 9, 11} then 30
    else 31
  }
}
