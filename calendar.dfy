/**
 * Calendar arithmetic behind the dashboard's month view, as JavaScript's `Date`
 * performs it: day numbers counted from 1 January 1970, the Gregorian leap-year
 * rule, and the month stepping of the Prev/Next links.
 */
module Calendar {

  /** A calendar date; `month` is 1-based (1 = January). */
  datatype Date = Date(year: int, month: int, day: int)

  /** A month of a year; `month` is 1-based. */
  datatype YearMonth = YearMonth(year: int, month: int)

  predicate IsLeapYear(y: int) {
    y % 4 == 0 && (y % 100 != 0 || y % 400 == 0)
  }

  /** The Gregorian calendar's month lengths: 30 days hath September, April, June and November... */
  function MonthLength(y: int, m: int): (n: int)
    requires 1 <= m <= 12
  {
    if m == 2 then (if IsLeapYear(y) then 29 else 28)
    else if m == 4 || m == 6 || m == 9 || m == 11 then 30
    else 31
  }

  /** The multi-argument `Date` constructor reads a year 0..99 as 1900 + year. */
  function JsYear(year: int): int {
    if 0 <= year <= 99 then 1900 + year else year
  }

  /** Day number of 1 January of year `y` (ECMAScript's DayFromYear); `/` on a positive divisor floors. */
  function DayFromYear(y: int): int {
    365 * (y - 1970) + (y - 1969) / 4 - (y - 1901) / 100 + (y - 1601) / 400
  }

  /** Days of the year that precede the first of month `m` (ECMAScript's month-start table). */
  function MonthStart(y: int, m: int): int
    requires 1 <= m <= 12
  {
    var common := [0, 31, 59, 90, 120, 151, 181, 212, 243, 273, 304, 334][m - 1];
    if m >= 3 && IsLeapYear(y) then common + 1 else common
  }

  /** Day number of the first day of `ym`. */
  function FirstDay(ym: YearMonth): int
    requires 1 <= ym.month <= 12
  {
    DayFromYear(ym.year) + MonthStart(ym.year, ym.month)
  }

  /** Day number of a date (the time value of `new Date(y, m - 1, d)`, in days). */
  function DayNumber(d: Date): int
    requires 1 <= d.month <= 12
  {
    FirstDay(YearMonth(d.year, d.month)) + d.day - 1
  }

  /** A date that names a real day of the Gregorian calendar. */
  predicate ValidDate(d: Date) {
    1 <= d.month <= 12 && 1 <= d.day <= MonthLength(d.year, d.month)
  }

  /** A date as a stored timestamp yields it: always a real day of the calendar. */
  type RealDate = d: Date | ValidDate(d) witness Date(1970, 1, 1)

  /** Position of a month on a single month-by-month time line. */
  function MonthIndex(ym: YearMonth): int {
    12 * ym.year + ym.month - 1
  }

  /** The Prev link: January steps back to December of the previous year. */
  function PrevMonth(ym: YearMonth): (r: YearMonth)
    requires 1 <= ym.month <= 12
    ensures 1 <= r.month <= 12
    ensures MonthIndex(r) == MonthIndex(ym) - 1
  {
    if ym.month == 1 then YearMonth(ym.year - 1, 12) else YearMonth(ym.year, ym.month - 1)
  }

  /** The Next link: December steps on to January of the next year. */
  function NextMonth(ym: YearMonth): (r: YearMonth)
    requires 1 <= ym.month <= 12
    ensures 1 <= r.month <= 12
    ensures MonthIndex(r) == MonthIndex(ym) + 1
  {
    if ym.month == 12 then YearMonth(ym.year + 1, 1) else YearMonth(ym.year, ym.month + 1)
  }

  /** Within a valid month, each of MonthIndex's values names one month. */
  lemma MonthIndexInjective(a: YearMonth, b: YearMonth)
    requires 1 <= a.month <= 12 && 1 <= b.month <= 12
    requires MonthIndex(a) == MonthIndex(b)
    ensures a == b
  {
  }

  /** Prev and Next undo each other. */
  lemma {:induction false} PrevNextRoundTrip(ym: YearMonth)
    requires 1 <= ym.month <= 12
    ensures NextMonth(PrevMonth(ym)) == ym
    ensures PrevMonth(NextMonth(ym)) == ym
  {
    MonthIndexInjective(NextMonth(PrevMonth(ym)), ym);
    MonthIndexInjective(PrevMonth(NextMonth(ym)), ym);
  }

  /** ECMAScript's closed-form day count gives every year 365 days, and 366 exactly in leap years. */
  lemma YearLength(y: int)
    ensures DayFromYear(y + 1) - DayFromYear(y) == if IsLeapYear(y) then 366 else 365
  {
    FourYearStep(y);
    CenturyStep(y);
    QuadCenturyStep(y);
    DivisibilityChain(y);
    assert 365 * (y + 1 - 1970) - 365 * (y - 1970) == 365;
  }

  /** A multiple of 400 is a multiple of 100, and a multiple of 100 a multiple of 4. */
  lemma DivisibilityChain(y: int)
    ensures y % 400 == 0 ==> y % 100 == 0
    ensures y % 100 == 0 ==> y % 4 == 0
  {
    if y % 400 == 0 {
      var q, d, r := y / 400, y / 100, y % 100;
      assert y == 400 * q && y == 100 * d + r && 0 <= r < 100;
      assert r == 100 * (4 * q - d);
    }
    if y % 100 == 0 {
      var q, d, r := y / 100, y / 4, y % 4;
      assert y == 100 * q && y == 4 * d + r && 0 <= r < 4;
      assert r == 4 * (25 * q - d);
    }
  }

  /** The count of leap days from 1969 grows by one exactly at a multiple of 4. */
  lemma FourYearStep(y: int)
    ensures (y + 1 - 1969) / 4 - (y - 1969) / 4 == if y % 4 == 0 then 1 else 0
  {
    assert (y + 1 - 1969) % 4 == y % 4;
  }

  /** The count of skipped century leap days from 1901 grows by one exactly at a multiple of 100. */
  lemma CenturyStep(y: int)
    ensures (y + 1 - 1901) / 100 - (y - 1901) / 100 == if y % 100 == 0 then 1 else 0
  {
    assert (y + 1 - 1901) % 100 == y % 100;
  }

  /** The count of restored leap days from 1601 grows by one exactly at a multiple of 400. */
  lemma QuadCenturyStep(y: int)
    ensures (y + 1 - 1601) / 400 - (y - 1601) / 400 == if y % 400 == 0 then 1 else 0
  {
    assert (y + 1 - 1601) % 400 == y % 400;
  }

  /** The first day of the next month comes exactly one month length after the first of this one. */
  lemma NextFirstDay(ym: YearMonth)
    requires 1 <= ym.month <= 12
    ensures FirstDay(NextMonth(ym)) == FirstDay(ym) + MonthLength(ym.year, ym.month)
  {
    if ym.month == 12 {
      YearLength(ym.year);
    }
  }

  /**
   * `new Date(year, month, 0).getDate()` as the Date object computes it: with a 0-based
   * month argument equal to the 1-based `month`, day 0 of the following month is the
   * last day of `month`, and its date is its distance from the first of `month`, plus one.
   */
  function DateOfDayZero(year: int, month: int): int
    requires 1 <= month <= 12
  {
    var ym := YearMonth(JsYear(year), month);
    var lastDay := FirstDay(NextMonth(ym)) - 1;
    lastDay - FirstDay(ym) + 1
  }

  /** Number of days of `month` in `year`, by the Gregorian rule, as the page reads it. */
  function DaysInMonth(year: int, month: int): (n: int)
    requires 1 <= month <= 12
    ensures 28 <= n <= 31
  {
    MonthLength(JsYear(year), month)
  }

  /** The page's `new Date(year, month, 0).getDate()` yields the Gregorian month length. */
  lemma DateOfDayZeroIsMonthLength(year: int, month: int)
    requires 1 <= month <= 12
    ensures DateOfDayZero(year, month) == DaysInMonth(year, month)
  {
    NextFirstDay(YearMonth(JsYear(year), month));
  }

  /** The leap-year rule at work: February of 2024 and 2000 has 29 days, of 2023 and 1900 has 28. */
  lemma FebruaryExamples()
    ensures DaysInMonth(2024, 2) == 29 && DaysInMonth(2000, 2) == 29
    ensures DaysInMonth(2023, 2) == 28 && DaysInMonth(1900, 2) == 28
  {
  }

  /** Outside February a month has 30 days exactly when it is April, June, September or November. */
  lemma ThirtyDayMonths(year: int, month: int)
    requires 1 <= month <= 12 && month != 2
    ensures DaysInMonth(year, month) == 30 <==> month in {4, 6, 9, 11}
    ensures DaysInMonth(year, month) == 31 <==> month in {1, 3, 5, 7, 8, 10, 12}
  {
  }

  /** Year 0 is a proleptic-Gregorian leap year, but the Date constructor reads it as 1900. */
  lemma TwoDigitYear()
    ensures MonthLength(0, 2) == 29 && DaysInMonth(0, 2) == 28
  {
  }

  /** Day numbers grow with the month: a later month starts after an earlier one ends. */
  lemma {:induction false} FirstDayMonotone(a: YearMonth, b: YearMonth)
    requires 1 <= a.month <= 12 && 1 <= b.month <= 12
    requires MonthIndex(a) < MonthIndex(b)
    ensures FirstDay(NextMonth(a)) <= FirstDay(b)
    decreases MonthIndex(b) - MonthIndex(a)
  {
    var a' := NextMonth(a);
    if MonthIndex(a') == MonthIndex(b) {
      MonthIndexInjective(a', b);
    } else {
      FirstDayMonotone(a', b);
      NextFirstDay(a');
    }
  }

  /**
   * A valid date lies in the half-open range [first of `ym`, first of the next month)
   * of day numbers exactly when it is a day of `ym`.
   */
  lemma {:induction false} InMonthRange(d: Date, ym: YearMonth)
    requires ValidDate(d) && 1 <= ym.month <= 12
    ensures FirstDay(ym) <= DayNumber(d) < FirstDay(NextMonth(ym))
            <==> d.year == ym.year && d.month == ym.month
  {
    var dm := YearMonth(d.year, d.month);
    NextFirstDay(dm);
    NextFirstDay(ym);
    if MonthIndex(dm) < MonthIndex(ym) {
      FirstDayMonotone(dm, ym);
    } else if MonthIndex(ym) < MonthIndex(dm) {
      FirstDayMonotone(ym, dm);
    } else {
      MonthIndexInjective(dm, ym);
    }
  }
}
