/** On which days a promotion is looked at, and which days share a period, in closed form. */
module GfsDays {
  import opened Calendar
  import opened GfsRotation

  /** The first of some month of the closed form, or of some year. */
  ghost predicate StartsMonth(n: int) {
    exists y, m :: 1 <= y && 1 <= m <= 12 && n == FromMarch(y, m, 1)
  }

  ghost predicate StartsYear(n: int) {
    exists y :: 1 <= y && n == FromMarch(y, 1, 1)
  }

  lemma FirstOfMonthIff(n: int)
    requires 1 <= n
    ensures Day(n) == 1 <==> StartsMonth(n)
  {
    DateFromMarch(n);
    forall y, m | 1 <= y && 1 <= m <= 12 && n == FromMarch(y, m, 1) ensures Day(n) == 1 {
      assert ValidDate(Date(y, m, 1));
    }
    hide DateOf, FromMarch;
  }

  lemma FirstOfYearIff(n: int)
    requires 1 <= n
    ensures Day(n) == 1 && Month(n) == 1 <==> StartsYear(n)
  {
    DateFromMarch(n);
    forall y | 1 <= y && n == FromMarch(y, 1, 1) ensures Day(n) == 1 && Month(n) == 1 {
      assert ValidDate(Date(y, 1, 1));
    }
    hide DateOf, FromMarch;
  }

  lemma MondayIff(n: int)
    ensures Weekday(n) == 0 <==> n % 7 == 1
  {
  }

  /**
    A daily promotion is looked at every day, a weekly one on the days 1, 8, 15, ... (Mondays), a
    monthly one on the first day of each month of the closed form, and a yearly one on that of each
    year.
  */
  lemma DueExactlyOn(n: int)
    requires 1 <= n
    ensures Due(Daily, n) && !Due(Hourly, n)
    ensures Due(Weekly, n) <==> n % 7 == 1
    ensures Due(Monthly, n) <==> StartsMonth(n)
    ensures Due(Yearly, n) <==> StartsYear(n)
  {
    hide StartsMonth, StartsYear, Weekday, Day, Month;
    MondayIff(n);
    FirstOfMonthIff(n);
    FirstOfYearIff(n);
  }

  /** The first day after a month. */
  function NextMonth(y: int, m: int): int {
    if m == 12 then FromMarch(y + 1, 1, 1) else FromMarch(y, m + 1, 1)
  }

  lemma InMonthIff(n: int, y: int, m: int)
    requires 1 <= n && 1 <= y && 1 <= m <= 12
    ensures Year(n) == y && Month(n) == m <==> FromMarch(y, m, 1) <= n < NextMonth(y, m)
  {
    hide DateOf, FromMarch;
    DateFromMarch(n);
    if FromMarch(y, m, 1) <= n < NextMonth(y, m) {
      var d := n - FromMarch(y, m, 1) + 1;
      DayOfMonth(y, m, d);
      ValidIff(Date(y, m, d));
    }
    if Year(n) == y && Month(n) == m {
      ValidIff(DateOf(n));
      DayOfMonth(y, m, Day(n));
    }
  }

  lemma DayOfMonth(y: int, m: int, d: int)
    ensures FromMarch(y, m, d) == FromMarch(y, m, 1) + d - 1
  {
  }

  /** Two days between the same firsts of month, or of year. */
  ghost predicate SameMonth(a: int, b: int) {
    exists y, m :: 1 <= y && 1 <= m <= 12 && FromMarch(y, m, 1) <= a < NextMonth(y, m) && FromMarch(y, m, 1) <= b < NextMonth(y, m)
  }

  predicate BothInYear(a: int, b: int, y: int) {
    1 <= y && FromMarch(y, 1, 1) <= a < FromMarch(y + 1, 1, 1) && FromMarch(y, 1, 1) <= b < FromMarch(y + 1, 1, 1)
  }

  ghost predicate SameYear(a: int, b: int) {
    exists y :: BothInYear(a, b, y)
  }

  /** Two days share a daily period when they are the same, a weekly one between two Mondays, a monthly one within a month. */
  lemma SamePeriodIff(a: int, b: int)
    requires 1 <= a && 1 <= b
    ensures Period(Daily, a) == Period(Daily, b) <==> a == b
    ensures Period(Weekly, a) == Period(Weekly, b) <==> (a - 1) / 7 == (b - 1) / 7
    ensures Period(Monthly, a) == Period(Monthly, b) <==> SameMonth(a, b)
    ensures Period(Yearly, a) == Period(Yearly, b) <==> SameYear(a, b)
  {
    hide DateOf, FromMarch, WeekMonday, MonthIndex, Year, NextMonth;
    SameMonthIff(a, b);
    SameYearIff(a, b);
    SameWeekIff(a, b);
  }

  lemma SameWeekIff(a: int, b: int)
    ensures WeekMonday(a) == WeekMonday(b) <==> (a - 1) / 7 == (b - 1) / 7
  {
  }

  lemma SameMonthIff(a: int, b: int)
    requires 1 <= a && 1 <= b
    ensures MonthIndex(a) == MonthIndex(b) <==> SameMonth(a, b)
  {
    DateFromMarch(a);
    DateFromMarch(b);
    InMonthIff(a, Year(a), Month(a));
    InMonthIff(b, Year(a), Month(a));
    forall y, m | 1 <= y && 1 <= m <= 12 && FromMarch(y, m, 1) <= a < NextMonth(y, m) && FromMarch(y, m, 1) <= b < NextMonth(y, m)
      ensures MonthIndex(a) == MonthIndex(b)
    {
      InMonthIff(a, y, m);
      InMonthIff(b, y, m);
    }
    hide DateOf, FromMarch, NextMonth;
  }

  lemma InYearIff(n: int, y: int)
    requires 1 <= n && 1 <= y
    ensures Year(n) == y <==> FromMarch(y, 1, 1) <= n < FromMarch(y + 1, 1, 1)
  {
    DateFromMarch(n);
    if Year(n) < y { YearsApart(Year(n), y, n); }
    if y < Year(n) { YearsApart(y, Year(n), n); }
    hide DateOf, FromMarch;
    YearAround(n);
  }

  /** A day is in its own year. */
  lemma YearAround(n: int)
    requires 1 <= n
    ensures FromMarch(Year(n), 1, 1) <= n < FromMarch(Year(n) + 1, 1, 1)
  {
    DateFromMarch(n);
    ValidIff(DateOf(n));
    MonthsOrdered(Year(n), Month(n));
    DayOfMonth(Year(n), Month(n), Day(n));
    hide DateOf, FromMarch;
  }

  lemma MonthsOrdered(y: int, m: int)
    requires 1 <= m <= 12
    ensures FromMarch(y, 1, 1) <= FromMarch(y, m, 1) && NextMonth(y, m) <= FromMarch(y + 1, 1, 1)
  {
    Quotients(y);
  }

  lemma YearsApart(a: int, b: int, n: int)
    requires a < b
    ensures FromMarch(a + 1, 1, 1) <= FromMarch(b, 1, 1)
    decreases b - a
  {
    if a + 1 < b {
      YearsApart(a, b - 1, n);
      MonthsOrdered(b - 1, 1);
    }
    hide FromMarch;
  }

  lemma SameYearIff(a: int, b: int)
    requires 1 <= a && 1 <= b
    ensures Year(a) == Year(b) <==> SameYear(a, b)
  {
    DateFromMarch(a);
    InYearIff(a, Year(a));
    InYearIff(b, Year(a));
    assert Year(a) == Year(b) ==> BothInYear(a, b, Year(a));
    forall y | BothInYear(a, b, y) ensures Year(a) == Year(b) {
      InYearIff(a, y);
      InYearIff(b, y);
    }
    hide DateOf, FromMarch;
  }
}
