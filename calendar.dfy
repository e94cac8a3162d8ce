/**
 * The proleptic Gregorian calendar, as pandas uses it for `pd.to_datetime`,
 * `pd.date_range` and `dt.weekday`.
 *
 * Days are numbered consecutively from 0001-01-01 (day 0, a Monday), so the
 * difference of two day numbers is the number of days between the dates and
 * the day number modulo 7 is the weekday with Monday = 0 .. Sunday = 6.
 */
module Calendar {

  datatype Date = Date(year: int, month: int, day: int) {

    /** A real calendar date: month 1..12 and a day that exists in that month. */
    predicate Valid() {
      1 <= year && 1 <= month <= 12 && 1 <= day <= DaysInMonth(year, month)
    }
  }

  predicate IsLeap(y: int) {
    y % 4 == 0 && (y % 100 != 0 || y % 400 == 0)
  }

  function DaysInYear(y: int): (n: int)
    ensures n == 365 || n == 366
  {
    if IsLeap(y) then 366 else 365
  }

  function DaysInMonth(y: int, m: int): (n: int)
    ensures 28 <= n <= 31
    ensures n == 29 <==> m == 2 && IsLeap(y)
    ensures n == 28 <==> m == 2 && !IsLeap(y)
  {
    if m == 2 then (if IsLeap(y) then 29 else 28)
    else if m == 4 || m == 6 || m == 9 || m == 11 then 30
    else 31
  }

  /** Days in the months of year `y` before month `m` (1 <= m <= 12). */
  function DaysBeforeMonth(y: int, m: int): int
  {
    var common :=
      if m <= 1 then 0 else if m == 2 then 31 else if m == 3 then 59
      else if m == 4 then 90 else if m == 5 then 120 else if m == 6 then 151
      else if m == 7 then 181 else if m == 8 then 212 else if m == 9 then 243
      else if m == 10 then 273 else if m == 11 then 304 else 334;
    common + (if m > 2 && IsLeap(y) then 1 else 0)
  }

  /** Days from 0001-01-01 to the first day of year `y` (y >= 1). */
  function DaysBeforeYear(y: int): int
    decreases y
  {
    if y <= 1 then 0 else DaysBeforeYear(y - 1) + DaysInYear(y - 1)
  }

  /** The day number of a date: 0001-01-01 is day 0. */
  function DayNumber(d: Date): int
  {
    DaysBeforeYear(d.year) + DaysBeforeMonth(d.year, d.month) + d.day - 1
  }

  /** The number of days from `start` to `end`, both included. */
  function DaysInRange(start: Date, end: Date): int
  {
    DayNumber(end) - DayNumber(start) + 1
  }

  /** Monday = 0 .. Sunday = 6, the numbering of pandas' `dt.weekday`. */
  function Weekday(d: Date): (w: int)
    ensures 0 <= w < 7
  {
    DayNumber(d) % 7
  }

  /** The calendar day after `d`. */
  function NextDay(d: Date): (e: Date)
    requires d.Valid()
    ensures e.Valid()
    ensures DayNumber(e) == DayNumber(d) + 1
  {
    if d.day < DaysInMonth(d.year, d.month) then
      Date(d.year, d.month, d.day + 1)
    else if d.month < 12 then
      MonthStep(d.year, d.month);
      Date(d.year, d.month + 1, 1)
    else
      YearStep(d.year);
      Date(d.year + 1, 1, 1)
  }

  lemma MonthStep(y: int, m: int)
    requires 1 <= m < 12
    ensures DaysBeforeMonth(y, m + 1) == DaysBeforeMonth(y, m) + DaysInMonth(y, m)
  {
  }

  lemma YearStep(y: int)
    requires y >= 1
    ensures DaysBeforeYear(y + 1) == DaysBeforeYear(y) + DaysInYear(y)
  {
  }

  /** `y / k` grows by one from `y - 1` to `y` exactly when `k` divides `y`. */
  lemma DivSteps(y: int)
    ensures y / 4 - (y - 1) / 4 == if y % 4 == 0 then 1 else 0
    ensures y / 100 - (y - 1) / 100 == if y % 100 == 0 then 1 else 0
    ensures y / 400 - (y - 1) / 400 == if y % 400 == 0 then 1 else 0
  {
  }

  /** 400 | y implies 100 | y, and 100 | y implies 4 | y. */
  lemma DivisorChain(y: int)
    ensures y % 400 == 0 ==> y % 100 == 0
    ensures y % 100 == 0 ==> y % 4 == 0
  {
    if y % 400 == 0 {
      var q := y / 400;
      assert y == 100 * (4 * q);
    }
    if y % 100 == 0 {
      var q := y / 100;
      assert y == 4 * (25 * q);
    }
  }

  /**
   * The year-by-year count agrees with the Gregorian closed form: 365 days a
   * year plus one for every fourth year, minus the centuries, plus every
   * fourth century.
   */
  lemma {:induction false} DaysBeforeYearClosedForm(y: int)
    requires y >= 1
    ensures DaysBeforeYear(y) == 365 * (y - 1) + (y - 1) / 4 - (y - 1) / 100 + (y - 1) / 400
    decreases y
  {
    if y > 1 {
      DaysBeforeYearClosedForm(y - 1);
      DivSteps(y - 1);
      DivisorChain(y - 1);
    }
  }

  /** Two known weekdays: 2024-06-15 was a Saturday and 2024-06-17 a Monday. */
  lemma KnownWeekdays()
    ensures Weekday(Date(2024, 6, 15)) == 5
    ensures Weekday(Date(2024, 6, 17)) == 0
  {
    WeekdaysIn(2024);
  }

  /**
   * The weekdays of KnownWeekdays, with the year passed as a parameter: a
   * literal year would make the verifier unfold DaysBeforeYear year by year,
   * while a parameter lets the closed form be used instead.
   */
  lemma WeekdaysIn(y: int)
    requires y == 2024
    ensures Weekday(Date(y, 6, 15)) == 5
    ensures Weekday(Date(y, 6, 17)) == 0
  {
    DaysBeforeYearClosedForm(y);
    assert (y - 1) / 4 == 505 && (y - 1) / 100 == 20 && (y - 1) / 400 == 5;
    assert DaysBeforeYear(y) == 738885;
    assert DaysBeforeMonth(y, 6) == 152;
    assert DayNumber(Date(y, 6, 15)) == 739051;
    assert DayNumber(Date(y, 6, 17)) == 739053;
  }

  /** A valid date lies inside its own year. */
  lemma WithinYear(d: Date)
    requires d.Valid()
    ensures DaysBeforeYear(d.year) <= DayNumber(d) < DaysBeforeYear(d.year) + DaysInYear(d.year)
  {
  }

  lemma {:induction false} DaysBeforeYearMonotone(y1: int, y2: int)
    requires 1 <= y1 <= y2
    ensures DaysBeforeYear(y1) + 365 * (y2 - y1) <= DaysBeforeYear(y2)
    decreases y2 - y1
  {
    if y1 < y2 {
      DaysBeforeYearMonotone(y1, y2 - 1);
      YearStep(y2 - 1);
    }
  }

  /** Chronological order of dates, field by field. */
  predicate Before(a: Date, b: Date) {
    a.year < b.year || (a.year == b.year && (a.month < b.month || (a.month == b.month && a.day < b.day)))
  }

  lemma NextDayAfter(d: Date)
    requires d.Valid()
    ensures Before(d, NextDay(d))
  {
  }

  /** A valid date in an earlier year has a smaller day number. */
  lemma YearsInOrder(a: Date, b: Date)
    requires a.Valid() && b.Valid() && a.year < b.year
    ensures DayNumber(a) < DayNumber(b)
  {
    WithinYear(a);
    WithinYear(b);
    YearStep(a.year);
    DaysBeforeYearMonotone(a.year + 1, b.year);
  }

  /** Within one year, a valid date in an earlier month has a smaller day number. */
  lemma MonthsInOrder(a: Date, b: Date)
    requires a.Valid() && b.Valid() && a.year == b.year && a.month < b.month
    ensures DayNumber(a) < DayNumber(b)
  {
    assert DaysBeforeMonth(a.year, a.month) + DaysInMonth(a.year, a.month) <= DaysBeforeMonth(a.year, b.month);
  }

  /** On valid dates the field order is the order of day numbers. */
  lemma BeforeIsDayNumberOrder(a: Date, b: Date)
    requires a.Valid() && b.Valid()
    ensures Before(a, b) <==> DayNumber(a) < DayNumber(b)
  {
    if a.year < b.year {
      YearsInOrder(a, b);
    } else if b.year < a.year {
      YearsInOrder(b, a);
    } else if a.month < b.month {
      MonthsInOrder(a, b);
    } else if b.month < a.month {
      MonthsInOrder(b, a);
    }
  }

  /** Day numbers identify valid dates: DayNumber is injective on them. */
  lemma DayNumberInjective(a: Date, b: Date)
    requires a.Valid() && b.Valid()
    requires DayNumber(a) == DayNumber(b)
    ensures a == b
  {
    BeforeIsDayNumberOrder(a, b);
    BeforeIsDayNumberOrder(b, a);
  }
}
