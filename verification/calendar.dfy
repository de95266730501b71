/**
 * Gregorian calendar arithmetic as the ledger uses it through JavaScript `Date`:
 * local calendar dates as (year, month 1..12, day) triples, month markers, month
 * overflow normalisation, day clamping, day stepping and the day of the week.
 */
module Calendar {
  import opened Common

  datatype Date = Date(year: int, month: int, day: int)

  /** A calendar month, the value of a "YYYY-MM" marker. */
  datatype YearMonth = YearMonth(year: int, month: int)

  predicate IsLeapYear(y: int)
  {
    y % 4 == 0 && (y % 100 != 0 || y % 400 == 0)
  }

  function DaysInMonth(y: int, m: int): (n: int)
    requires 1 <= m <= 12
    ensures 28 <= n <= 31
    ensures n == 28 <==> m == 2 && !IsLeapYear(y)
    ensures n == 29 <==> m == 2 && IsLeapYear(y)
    ensures n == 30 <==> m in {4, 6, 9, 11}
  {
    if m == 2 then (if IsLeapYear(y) then 29 else 28)
    else if m in {4, 6, 9, 11} then 30
    else 31
  }

  predicate IsCalendarDate(d: Date)
  {
    1 <= d.month <= 12 && 1 <= d.day <= DaysInMonth(d.year, d.month)
  }

  predicate ValidMonth(ym: YearMonth)
  {
    1 <= ym.month <= 12
  }

  function MonthOf(d: Date): YearMonth
  {
    YearMonth(d.year, d.month)
  }

  /** Months counted from January of year 0; consecutive months have consecutive indices. */
  function MonthIndex(ym: YearMonth): int
  {
    ym.year * 12 + ym.month - 1
  }

  function FromIndex(k: int): (ym: YearMonth)
    ensures ValidMonth(ym)
    ensures MonthIndex(ym) == k
  {
    YearMonth(k / 12, k % 12 + 1)
  }

  lemma FromIndexOfMonthIndex(ym: YearMonth)
    requires ValidMonth(ym)
    ensures FromIndex(MonthIndex(ym)) == ym
  {
    var k := MonthIndex(ym);
    assert k == ym.year * 12 + (ym.month - 1) && 0 <= ym.month - 1 < 12;
    assert k / 12 == ym.year && k % 12 == ym.month - 1;
  }

  /** Moving `m0` months on from January of year `y` lands in the calendar month `m0 % 12 + 1`. */
  lemma MonthOfShift(y: int, m0: int)
    ensures FromIndex(y * 12 + m0).month == m0 % 12 + 1
  {
    var q, r := m0 / 12, m0 % 12;
    assert y * 12 + m0 == (y + q) * 12 + r;
  }

  lemma MonthIndexInjective(a: YearMonth, b: YearMonth)
    requires ValidMonth(a) && ValidMonth(b)
    ensures MonthIndex(a) == MonthIndex(b) <==> a == b
  {
    if MonthIndex(a) == MonthIndex(b) {
      FromIndexOfMonthIndex(a);
      FromIndexOfMonthIndex(b);
    }
  }

  function NextMonth(ym: YearMonth): (n: YearMonth)
    ensures ValidMonth(n)
    ensures MonthIndex(n) == MonthIndex(ym) + 1
  {
    FromIndex(MonthIndex(ym) + 1)
  }

  /**
   * The day `new Date(y, m0, day)` denotes when `m0` is a zero-based month that may
   * lie outside 0..11: the month overflows into neighbouring years and the day is
   * clamped to the last day of the resulting month (main.js getClampedDate).
   */
  function ClampedDate(y: int, m0: int, day: int): (d: Date)
    requires 1 <= day
    ensures IsCalendarDate(d)
    ensures MonthIndex(MonthOf(d)) == y * 12 + m0
    ensures d.day <= day
    ensures d.day == day || d.day == DaysInMonth(d.year, d.month)
  {
    var ym := FromIndex(y * 12 + m0);
    Date(ym.year, ym.month, MinInt(day, DaysInMonth(ym.year, ym.month)))
  }

  lemma ClampedDayIsMin(y: int, m0: int, day: int)
    requires 1 <= day
    ensures var d := ClampedDate(y, m0, day);
            d.day == MinInt(day, DaysInMonth(d.year, d.month))
  {
  }

  /**
   * Month arithmetic crosses year ends in both directions: month -1 of 2024 is
   * December 2023, and a day that fits its month is kept.
   */
  lemma ClampedDateExamples()
    ensures ClampedDate(2024, -1, 15) == Date(2023, 12, 15)
    ensures ClampedDate(2024, 0, 15) == Date(2024, 1, 15)
    ensures ClampedDate(2024, 1, 15) == Date(2024, 2, 15)
  {
    assert ClampedDate(2024, -1, 15) == Date(2023, 12, 15) by {
      assert 24287 / 12 == 2023 && 24287 % 12 == 11;
    }
    assert ClampedDate(2024, 1, 15) == Date(2024, 2, 15) by {
      assert 24289 / 12 == 2024 && 24289 % 12 == 1;
    }
  }

  /** The 31st clamped into February: the 29th in a leap year, the 28th otherwise. */
  lemma ClampedFebruaryExamples()
    ensures ClampedDate(2024, 1, 31) == Date(2024, 2, 29)
    ensures ClampedDate(2023, 1, 31) == Date(2023, 2, 28)
  {
    assert ClampedDate(2024, 1, 31) == Date(2024, 2, 29) by {
      assert 24289 / 12 == 2024 && 24289 % 12 == 1;
      assert IsLeapYear(2024);
    }
    assert ClampedDate(2023, 1, 31) == Date(2023, 2, 28) by {
      assert 24277 / 12 == 2023 && 24277 % 12 == 1;
      assert !IsLeapYear(2023);
    }
  }

  /**
   * The day `new Date(y, m0, day)` denotes without clamping: a day past the end
   * of the month rolls over into the following month(s).
   */
  function OverflowDate(y: int, m0: int, day: int): (d: Date)
    requires 1 <= day
    ensures IsCalendarDate(d)
    ensures MonthIndex(MonthOf(d)) >= y * 12 + m0
    ensures day <= DaysInMonth(FromIndex(y * 12 + m0).year, FromIndex(y * 12 + m0).month)
            ==> d == Date(FromIndex(y * 12 + m0).year, FromIndex(y * 12 + m0).month, day)
    decreases day
  {
    var ym := FromIndex(y * 12 + m0);
    var n := DaysInMonth(ym.year, ym.month);
    if day <= n then Date(ym.year, ym.month, day)
    else OverflowDate(y, m0 + 1, day - n)
  }

  /** Lexicographic order on (year, month, day): the order of `Date` objects on calendar dates. */
  predicate DateLe(a: Date, b: Date)
  {
    a.year < b.year
    || (a.year == b.year && a.month < b.month)
    || (a.year == b.year && a.month == b.month && a.day <= b.day)
  }

  predicate DateLt(a: Date, b: Date)
  {
    DateLe(a, b) && a != b
  }

  function NextDay(d: Date): (r: Date)
    requires IsCalendarDate(d)
    ensures IsCalendarDate(r)
    ensures DateLt(d, r)
  {
    if d.day < DaysInMonth(d.year, d.month) then Date(d.year, d.month, d.day + 1)
    else if d.month < 12 then Date(d.year, d.month + 1, 1)
    else Date(d.year + 1, 1, 1)
  }

  /** `d` advanced by `n` days, as repeated `setDate(getDate() + 1)`. */
  function AddDays(d: Date, n: nat): (r: Date)
    requires IsCalendarDate(d)
    ensures IsCalendarDate(r)
    decreases n
  {
    if n == 0 then d else AddDays(NextDay(d), n - 1)
  }

  lemma {:induction false} AddDaysSucc(d: Date, n: nat)
    requires IsCalendarDate(d)
    ensures AddDays(d, n + 1) == NextDay(AddDays(d, n))
    decreases n
  {
    if n > 0 {
      AddDaysSucc(NextDay(d), n - 1);
    }
  }

  /** Days from 0001-01-01 (day 0) to 1 January of year `y`, proleptic Gregorian. */
  function DaysBeforeYear(y: int): int
  {
    365 * (y - 1) + (y - 1) / 4 - (y - 1) / 100 + (y - 1) / 400
  }

  function DaysBeforeMonth(y: int, m: int): (n: int)
    requires 1 <= m <= 12
  {
    var before :=
      if m == 1 then 0 else if m == 2 then 31 else if m == 3 then 59
      else if m == 4 then 90 else if m == 5 then 120 else if m == 6 then 151
      else if m == 7 then 181 else if m == 8 then 212 else if m == 9 then 243
      else if m == 10 then 273 else if m == 11 then 304 else 334;
    before + (if m > 2 && IsLeapYear(y) then 1 else 0)
  }

  function DayNumber(d: Date): int
    requires 1 <= d.month <= 12
  {
    DaysBeforeYear(d.year) + DaysBeforeMonth(d.year, d.month) + d.day - 1
  }

  /** Day of the week as `Date.getDay()` numbers it: 0 = Sunday, 6 = Saturday. */
  function Weekday(d: Date): (w: int)
    requires 1 <= d.month <= 12
    ensures 0 <= w < 7
  {
    (DayNumber(d) + 1) % 7
  }

  lemma DivStep(y: int)
    ensures y / 4 - (y - 1) / 4 == (if y % 4 == 0 then 1 else 0)
    ensures y / 100 - (y - 1) / 100 == (if y % 100 == 0 then 1 else 0)
    ensures y / 400 - (y - 1) / 400 == (if y % 400 == 0 then 1 else 0)
  {
  }

  lemma YearLength(y: int)
    ensures DaysBeforeYear(y + 1) - DaysBeforeYear(y) == (if IsLeapYear(y) then 366 else 365)
  {
    DivStep(y);
  }

  lemma NextDayNumber(d: Date)
    requires IsCalendarDate(d)
    ensures DayNumber(NextDay(d)) == DayNumber(d) + 1
  {
    if d.day == DaysInMonth(d.year, d.month) && d.month == 12 {
      YearLength(d.year);
    }
  }

  lemma {:induction false} AddDaysNumber(d: Date, n: nat)
    requires IsCalendarDate(d)
    ensures DayNumber(AddDays(d, n)) == DayNumber(d) + n
    decreases n
  {
    if n > 0 {
      var next := NextDay(d);
      assert AddDays(d, n) == AddDays(next, n - 1);
      NextDayNumber(d);
      AddDaysNumber(next, n - 1);
    }
  }

  /** The week advances by one day with every calendar day. */
  lemma NextDayWeekday(d: Date)
    requires IsCalendarDate(d)
    ensures Weekday(NextDay(d)) == (Weekday(d) + 1) % 7
  {
    NextDayNumber(d);
    ModSucc(DayNumber(d) + 1);
  }

  lemma ModSucc(x: int)
    ensures (x + 1) % 7 == (x % 7 + 1) % 7
  {
    var q := x / 7;
    assert x == 7 * q + x % 7;
    if x % 7 == 6 {
      assert x + 1 == 7 * (q + 1);
    } else {
      assert x + 1 == 7 * q + (x % 7 + 1);
    }
  }

  /** Anchor: 11 October 2026 is a Sunday. */
  lemma WeekdayAnchor()
    ensures Weekday(Date(2026, 10, 11)) == 0
  {
  }
}
