/**
  The proleptic Gregorian calendar of `datetime.date`. A date is a day number: day 1 is
  0001-01-01, a Monday.
*/
module Calendar {

  datatype Date = Date(year: int, month: int, day: int)

  const MICROSECONDS_PER_DAY := 86_400_000_000

  predicate Leap(year: int) {
    year % 4 == 0 && (year % 100 != 0 || year % 400 == 0)
  }

  function DaysInMonth(year: int, month: int): int {
    if month == 2 then (if Leap(year) then 29 else 28)
    else if month == 4 || month == 6 || month == 9 || month == 11 then 30
    else 31
  }

  predicate ValidDate(d: Date) {
    1 <= d.year && 1 <= d.month <= 12 && 1 <= d.day <= DaysInMonth(d.year, d.month)
  }

  function NextDay(d: Date): Date {
    if d.day < DaysInMonth(d.year, d.month) then Date(d.year, d.month, d.day + 1)
    else if d.month < 12 then Date(d.year, d.month + 1, 1)
    else Date(d.year + 1, 1, 1)
  }

  /** The calendar date of a day number. */
  function DateOf(n: int): (d: Date)
    requires 1 <= n
    ensures ValidDate(d)
  {
    if n == 1 then Date(1, 1, 1) else NextDay(DateOf(n - 1))
  }

  function DaysBeforeYear(year: int): int {
    (year - 1) * 365 + (year - 1) / 4 - (year - 1) / 100 + (year - 1) / 400
  }

  function DaysBeforeMonth(year: int, month: int): int
    requires 1 <= month
  {
    if month == 1 then 0 else DaysBeforeMonth(year, month - 1) + DaysInMonth(year, month - 1)
  }

  /** `date.toordinal`. */
  function OrdinalOf(d: Date): int
    requires ValidDate(d)
  {
    DaysBeforeYear(d.year) + DaysBeforeMonth(d.year, d.month) + d.day
  }

  lemma MonthsAddUp(year: int)
    ensures DaysBeforeMonth(year, 12) + 31 == (if Leap(year) then 366 else 365)
  {
    var feb := DaysInMonth(year, 2);
    assert DaysBeforeMonth(year, 2) == 31;
    assert DaysBeforeMonth(year, 3) == 31 + feb;
    assert DaysBeforeMonth(year, 5) == 31 + feb + 31 + 30;
    assert DaysBeforeMonth(year, 7) == 31 + feb + 31 + 30 + 31 + 30;
    assert DaysBeforeMonth(year, 9) == 31 + feb + 31 + 30 + 31 + 30 + 31 + 31;
    assert DaysBeforeMonth(year, 11) == 31 + feb + 31 + 30 + 31 + 30 + 31 + 31 + 30 + 31;
  }

  lemma Quotients(year: int)
    ensures year / 4 - (year - 1) / 4 == (if year % 4 == 0 then 1 else 0)
    ensures year / 100 - (year - 1) / 100 == (if year % 100 == 0 then 1 else 0)
    ensures year / 400 - (year - 1) / 400 == (if year % 400 == 0 then 1 else 0)
    ensures year % 400 == 0 ==> year % 100 == 0
    ensures year % 100 == 0 ==> year % 4 == 0
  {}

  lemma YearLength(year: int)
    ensures DaysBeforeYear(year + 1) - DaysBeforeYear(year) == (if Leap(year) then 366 else 365)
  {
    Quotients(year);
  }

  lemma NextDayOrdinal(d: Date)
    requires ValidDate(d)
    ensures ValidDate(NextDay(d)) && OrdinalOf(NextDay(d)) == OrdinalOf(d) + 1
  {
    if d.month == 12 && d.day == 31 {
      YearLength(d.year);
      MonthsAddUp(d.year);
    }
  }

  /** Stepping day by day agrees with the closed form of the ordinal. */
  lemma {:induction false} OrdinalOfDateOf(n: int)
    requires 1 <= n
    ensures OrdinalOf(DateOf(n)) == n
  {
    if n != 1 {
      OrdinalOfDateOf(n - 1);
      NextDayOrdinal(DateOf(n - 1));
    }
  }

  function Day(n: int): int requires 1 <= n { DateOf(n).day }
  function Month(n: int): int requires 1 <= n { DateOf(n).month }
  function Year(n: int): int requires 1 <= n { DateOf(n).year }

  /** `date.weekday`: Monday is 0. */
  function Weekday(n: int): int { (n - 1) % 7 }

  function WeekMonday(n: int): int { n - Weekday(n) }

  /** Months since year 0, so that consecutive months are consecutive numbers. */
  function MonthIndex(n: int): int requires 1 <= n { Year(n) * 12 + Month(n) - 1 }

  lemma NextDayGrows(n: int)
    requires 1 <= n
    ensures Year(n) <= Year(n + 1) && MonthIndex(n) <= MonthIndex(n + 1)
  {
    assert DateOf(n + 1) == NextDay(DateOf(n));
  }

  lemma NextWeekday(n: int)
    ensures WeekMonday(n) <= WeekMonday(n + 1)
  {
  }

  lemma {:induction false} Monotone(a: int, b: int)
    requires 1 <= a <= b
    ensures Year(a) <= Year(b) && MonthIndex(a) <= MonthIndex(b) && WeekMonday(a) <= WeekMonday(b)
    decreases b - a
  {
    hide DateOf, WeekMonday, MonthIndex, Year;
    if a < b {
      Monotone(a, b - 1);
      NextDayGrows(b - 1);
      NextWeekday(b - 1);
    }
  }

  /** The first day of a month follows the last day of the month before. */
  lemma FirstOfMonth(n: int)
    requires 2 <= n && Day(n) == 1
    ensures MonthIndex(n) == MonthIndex(n - 1) + 1
    ensures Month(n) == 1 ==> Year(n - 1) == Year(n) - 1
    ensures Month(n) != 1 ==> Year(n - 1) == Year(n) && Month(n - 1) == Month(n) - 1
  {
    assert DateOf(n) == NextDay(DateOf(n - 1));
  }

  /** `replace(day=1)`: the day number of the first of the same month. */
  function FirstDay(n: int): int
    requires 1 <= n
  {
    n - Day(n) + 1
  }

  lemma {:induction false} FirstDayOfMonth(n: int)
    requires 1 <= n
    ensures 1 <= FirstDay(n) <= n && Day(FirstDay(n)) == 1
    ensures Year(FirstDay(n)) == Year(n) && Month(FirstDay(n)) == Month(n)
  {
    if Day(n) != 1 {
      assert DateOf(n) == NextDay(DateOf(n - 1));
      FirstDayOfMonth(n - 1);
    }
  }

  /** Going back fewer days than the day of the month stays in the month. */
  lemma {:induction false} SameMonthBack(n: int, k: nat)
    requires 1 <= n && k < Day(n)
    ensures 1 <= n - k && MonthIndex(n - k) == MonthIndex(n) && Day(n - k) == Day(n) - k
  {
    if k != 0 {
      assert DateOf(n) == NextDay(DateOf(n - 1));
      SameMonthBack(n - 1, k - 1);
    }
  }

  predicate Before(a: Date, b: Date) {
    a.year < b.year || (a.year == b.year && (a.month < b.month || (a.month == b.month && a.day < b.day)))
  }

  lemma OrdinalInjective(a: Date, b: Date)
    requires ValidDate(a) && ValidDate(b) && OrdinalOf(a) == OrdinalOf(b)
    ensures a == b
  {
    if Before(a, b) { OrdinalGrows(a, b); } else if Before(b, a) { OrdinalGrows(b, a); }
  }

  lemma {:induction false} MonthsGrow(year: int, m: int, n: int)
    requires 1 <= m < n <= 12
    ensures DaysBeforeMonth(year, m) + DaysInMonth(year, m) <= DaysBeforeMonth(year, n)
    decreases n
  {
    if m < n - 1 { MonthsGrow(year, m, n - 1); }
  }

  lemma {:induction false} YearsGrow(y: int, z: int)
    requires y < z
    ensures DaysBeforeYear(y) + DaysBeforeMonth(y, 12) + 31 <= DaysBeforeYear(z)
    decreases z - y
  {
    YearLength(z - 1);
    MonthsAddUp(z - 1);
    if y < z - 1 { YearsGrow(y, z - 1); MonthsGrow(z - 1, 1, 12); }
  }

  lemma OrdinalGrows(a: Date, b: Date)
    requires ValidDate(a) && ValidDate(b) && Before(a, b)
    ensures OrdinalOf(a) < OrdinalOf(b)
  {
    if a.year == b.year {
      if a.month < b.month { MonthsGrow(a.year, a.month, b.month); }
    } else {
      YearsGrow(a.year, b.year);
      if a.month < 12 { MonthsGrow(a.year, a.month, 12); }
      if 1 < b.month { MonthsGrow(b.year, 1, b.month); }
    }
  }

  /** And only one day has a given date: the ordinal is the inverse of `DateOf`. */
  lemma DateOfOrdinal(d: Date, n: int)
    requires ValidDate(d) && 1 <= n && OrdinalOf(d) == n
    ensures DateOf(n) == d
  {
    OrdinalOfDateOf(n);
    OrdinalInjective(DateOf(n), d);
  }

  // ─── The calendar without month lengths ───────────────────────────────────

  /**
    The day number in closed form: years and months counted from March, so that the leap day is the
    last of a year and the months before one of number m have (153 m + 2) / 5 days.
  */
  function FromMarch(year: int, month: int, day: int): int {
    var y := if month <= 2 then year - 1 else year;
    var m := if month <= 2 then month + 9 else month - 3;
    365 * y + y / 4 - y / 100 + y / 400 + (153 * m + 2) / 5 + day - 306
  }

  lemma DaysToMonth(year: int)
    ensures var leap := if Leap(year) then 1 else 0;
      && DaysBeforeMonth(year, 1) == 0 && DaysBeforeMonth(year, 2) == 31 && DaysBeforeMonth(year, 3) == 59 + leap
      && DaysBeforeMonth(year, 4) == 90 + leap && DaysBeforeMonth(year, 5) == 120 + leap
      && DaysBeforeMonth(year, 6) == 151 + leap && DaysBeforeMonth(year, 7) == 181 + leap
      && DaysBeforeMonth(year, 8) == 212 + leap && DaysBeforeMonth(year, 9) == 243 + leap
      && DaysBeforeMonth(year, 10) == 273 + leap && DaysBeforeMonth(year, 11) == 304 + leap
      && DaysBeforeMonth(year, 12) == 334 + leap
  {
    var leap := if Leap(year) then 1 else 0;
    assert DaysBeforeMonth(year, 2) == 31;
    assert DaysBeforeMonth(year, 3) == 59 + leap;
    assert DaysBeforeMonth(year, 4) == 90 + leap;
    assert DaysBeforeMonth(year, 6) == 151 + leap;
    assert DaysBeforeMonth(year, 8) == 212 + leap;
    assert DaysBeforeMonth(year, 10) == 273 + leap;
  }

  /** For every valid date the two agree. */
  lemma OrdinalFromMarch(d: Date)
    requires ValidDate(d)
    ensures OrdinalOf(d) == FromMarch(d.year, d.month, d.day)
  {
    DaysToMonth(d.year);
    Quotients(d.year);
    hide DaysBeforeMonth;
  }

  /** A date is valid exactly when it lies before the first of the next month. */
  lemma ValidIff(d: Date)
    ensures ValidDate(d)
      <==> (1 <= d.year && 1 <= d.month <= 12 && 1 <= d.day
        && FromMarch(d.year, d.month, d.day) < (if d.month == 12 then FromMarch(d.year + 1, 1, 1) else FromMarch(d.year, d.month + 1, 1)))
  {
    Quotients(d.year);
    Quotients(d.year + 1);
  }

  /** The days of a date, from its closed form alone. */
  lemma DateFromMarch(n: int)
    requires 1 <= n
    ensures n == FromMarch(Year(n), Month(n), Day(n)) && 1 <= Day(n) && 1 <= Month(n) <= 12 && 1 <= Year(n)
    ensures forall y, m, d :: ValidDate(Date(y, m, d)) && FromMarch(y, m, d) == n ==> Year(n) == y && Month(n) == m && Day(n) == d
  {
    OrdinalOfDateOf(n);
    OrdinalFromMarch(DateOf(n));
    forall y, m, d | ValidDate(Date(y, m, d)) && FromMarch(y, m, d) == n ensures DateOf(n) == Date(y, m, d) {
      OrdinalFromMarch(Date(y, m, d));
      DateOfOrdinal(Date(y, m, d), n);
    }
    hide DateOf, FromMarch;
  }

  /** 1970-01-01 is day 719163, a Thursday. */
  lemma EpochIsThursday()
    ensures DateOf(719163) == Date(1970, 1, 1) && Weekday(719163) == 3
  {
    hide DateOf, DaysBeforeMonth;
    var epoch := Date(1970, 1, 1);
    assert ValidDate(epoch);
    OrdinalFromMarch(epoch);
    DateOfOrdinal(epoch, 719163);
  }
}
