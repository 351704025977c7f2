/** The proleptic Gregorian calendar, in days from 1 January of year 1. */
module CivilDate {

  datatype Date = Date(year: int, month: int, day: int)

  predicate Leap(y: int) { y % 4 == 0 && (y % 100 != 0 || y % 400 == 0) }

  function MonthDays(y: int, m: int): nat {
    if m == 2 then (if Leap(y) then 29 else 28)
    else if m == 4 || m == 6 || m == 9 || m == 11 then 30
    else 31
  }

  /** Days before 1 January of the year. */
  function DaysBefore(y: int): int { 365 * (y - 1) + (y - 1) / 4 - (y - 1) / 100 + (y - 1) / 400 }

  /** Days of the year before the month. */
  function MonthStart(y: int, m: int): int
    decreases m
  {
    if m <= 1 then 0 else MonthStart(y, m - 1) + MonthDays(y, m - 1)
  }

  /** The day number of a date; a day beyond its month runs on into the next one. */
  function DayOf(y: int, m: int, d: int): int { DaysBefore(y) + MonthStart(y, m) + d - 1 }

  function YearFrom(day: nat, y: int): (r: int)
    requires y >= 1 && DaysBefore(y) <= day
    ensures r >= y && DaysBefore(r) <= day < DaysBefore(r + 1)
    decreases day - DaysBefore(y)
  {
    YearLength(y);
    if day < DaysBefore(y + 1) then y else YearFrom(day, y + 1)
  }

  lemma FourCenturies(n: int)
    requires n >= 0
    ensures (n + 1) / 4 == n / 4 + (if (n + 1) % 4 == 0 then 1 else 0)
    ensures (n + 1) / 100 == n / 100 + (if (n + 1) % 100 == 0 then 1 else 0)
    ensures (n + 1) / 400 == n / 400 + (if (n + 1) % 400 == 0 then 1 else 0)
    ensures (n + 1) % 400 == 0 ==> (n + 1) % 100 == 0
    ensures (n + 1) % 100 == 0 ==> (n + 1) % 4 == 0
  {
  }

  lemma YearLength(y: int)
    requires y >= 1
    ensures DaysBefore(y + 1) == DaysBefore(y) + (if Leap(y) then 366 else 365)
  {
    FourCenturies(y - 1);
  }

  lemma GuessIsEarly(day: nat)
    ensures DaysBefore(day / 366 + 1) <= day
  {
  }

  function Year(day: nat): (y: int)
    ensures y >= 1 && DaysBefore(y) <= day < DaysBefore(y + 1)
  {
    GuessIsEarly(day);
    YearFrom(day, day / 366 + 1)
  }

  lemma MonthsFillYear(y: int)
    ensures MonthStart(y, 13) == if Leap(y) then 366 else 365
  {
    assert MonthStart(y, 4) == 31 + MonthDays(y, 2) + 31;
    assert MonthStart(y, 7) == MonthStart(y, 4) + 91;
    assert MonthStart(y, 10) == MonthStart(y, 7) + 92;
    assert MonthStart(y, 13) == MonthStart(y, 10) + 92;
  }

  /** The month of the year that holds its `rest`-th day, counted from 0. */
  function MonthFrom(y: int, rest: nat, m: int): (r: int)
    requires 1 <= m <= 12 && MonthStart(y, m) <= rest < MonthStart(y, 13)
    ensures m <= r <= 12 && MonthStart(y, r) <= rest < MonthStart(y, r + 1)
    decreases 12 - m
  {
    if m == 12 || rest < MonthStart(y, m + 1) then m else MonthFrom(y, rest, m + 1)
  }

  function Civil(day: nat): (c: Date)
    ensures 1 <= c.month <= 12 && 1 <= c.day <= MonthDays(c.year, c.month) && c.year >= 1
    ensures DayOf(c.year, c.month, c.day) == day
  {
    var y := Year(day);
    YearLength(y);
    MonthsFillYear(y);
    var m := MonthFrom(y, day - DaysBefore(y), 1);
    Date(y, m, day - DaysBefore(y) - MonthStart(y, m) + 1)
  }

  predicate Valid(c: Date) { c.year >= 1 && 1 <= c.month <= 12 && 1 <= c.day <= MonthDays(c.year, c.month) }

  lemma {:induction false} YearsGrow(a: int, b: int)
    requires 1 <= a <= b
    ensures DaysBefore(a) <= DaysBefore(b) && (a < b ==> DaysBefore(a + 1) <= DaysBefore(b))
    decreases b - a
  {
    if a < b {
      YearLength(b - 1);
      YearsGrow(a, b - 1);
    }
  }

  lemma {:induction false} MonthsGrow(y: int, a: int, b: int)
    requires 1 <= a <= b
    ensures MonthStart(y, a) <= MonthStart(y, b) && (a < b ==> MonthStart(y, a + 1) <= MonthStart(y, b))
    decreases b - a
  {
    if a < b {
      MonthsGrow(y, a, b - 1);
    }
  }

  lemma InYear(c: Date)
    requires Valid(c)
    ensures DaysBefore(c.year) + MonthStart(c.year, c.month) <= DayOf(c.year, c.month, c.day)
    ensures DayOf(c.year, c.month, c.day) < DaysBefore(c.year) + MonthStart(c.year, c.month + 1) <= DaysBefore(c.year + 1)
    ensures MonthStart(c.year, c.month) >= 0
  {
    hide DaysBefore, MonthDays, Leap;
    MonthsGrow(c.year, 1, c.month);
    MonthsGrow(c.year, c.month + 1, 13);
    MonthsFillYear(c.year);
    YearLength(c.year);
  }

  lemma OneDateADay(a: Date, b: Date)
    requires Valid(a) && Valid(b) && DayOf(a.year, a.month, a.day) == DayOf(b.year, b.month, b.day)
    ensures a == b
  {
    InYear(a);
    InYear(b);
    hide DaysBefore, MonthStart, Valid;
    if a.year < b.year {
      YearsGrow(a.year, b.year);
    } else if b.year < a.year {
      YearsGrow(b.year, a.year);
    } else if a.month < b.month {
      MonthsGrow(a.year, a.month, b.month);
    } else if b.month < a.month {
      MonthsGrow(a.year, b.month, a.month);
    }
  }

  /** Every day has one date, and every date one day. */
  lemma CivilReadsBack(c: Date)
    requires Valid(c)
    ensures DayOf(c.year, c.month, c.day) >= 0 && Civil(DayOf(c.year, c.month, c.day)) == c
  {
    InYear(c);
    YearsGrow(1, c.year);
    FirstYear();
    hide DaysBefore, MonthStart, Civil, DayOf;
    OneDateADay(Civil(DayOf(c.year, c.month, c.day)), c);
  }

  lemma FirstYear()
    ensures DaysBefore(1) == 0
  {
  }

  /** 0 is Sunday; 1 January of year 1 was a Monday. */
  function Weekday(day: int): int { (day + 1) % 7 }
}
