/** How much the five-year limit of the cron search leaves out: what fires at all fires again within 12 years, or 40
    for 29 February, and for the usual expressions the fields settle it. */
module CronHorizon {
  import opened CivilDate
  import opened CronFields
  import opened CronSearch
  import opened CronReturns
  import opened CronTexts

  // ---- the calendar repeats every 400 years ----

  const CYCLE_DAYS := 146097
  const CYCLE := CYCLE_DAYS * 1440

  lemma YearRepeats(y: int)
    ensures DaysBefore(y + 400) == DaysBefore(y) + CYCLE_DAYS && (Leap(y + 400) <==> Leap(y))
  {
    assert (y + 400 - 1) / 4 == (y - 1) / 4 + 100;
    assert (y + 400 - 1) / 100 == (y - 1) / 100 + 4;
    assert (y + 400 - 1) / 400 == (y - 1) / 400 + 1;
  }

  lemma DateRepeats(day: nat)
    ensures var c := Civil(day); Civil(day + CYCLE_DAYS) == Date(c.year + 400, c.month, c.day)
    ensures Weekday(day + CYCLE_DAYS) == Weekday(day)
  {
    hide DaysBefore, MonthStart, Leap, Civil;
    var c := Civil(day);
    YearRepeats(c.year);
    LongMonths(c.year, c.month);
    LongMonths(c.year + 400, c.month);
    CivilReadsBack(Date(c.year + 400, c.month, c.day));
  }

  /** What fires at a minute fires 400 years later, and the other way round. */
  lemma CronRepeats(expr: string, m: nat)
    ensures CronMatches(expr, m + CYCLE) <==> CronMatches(expr, m)
  {
    hide FieldMatches, Fields, Civil, Weekday;
    MinuteLater(m);
    DateRepeats(m / 1440);
  }

  lemma MinuteLater(m: nat)
    ensures (m + CYCLE) / 1440 == m / 1440 + CYCLE_DAYS && (m + CYCLE) % 60 == m % 60
    ensures (m + CYCLE) / 60 % 24 == m / 60 % 24
  {
    assert m == m / 1440 * 1440 + m % 1440;
    assert m + CYCLE == (m / 1440 + CYCLE_DAYS) * 1440 + m % 1440;
    MinuteParts(m / 1440, m % 1440);
    MinuteParts(m / 1440 + CYCLE_DAYS, m % 1440);
  }

  // ---- how far to look ----

  /** Some minute from `from` on fires. */
  ghost predicate FiresFrom(expr: string, from: nat) {
    exists m: nat :: from <= m && CronMatches(expr, m)
  }

  /** For every text and start: what fires at all, fires before the end of the 40th year after; and where no 29 February
      fires, before the end of the 12th. */
  lemma FoundByThen(expr: string, from: nat, n: nat)
    requires n == 40 || (n == 12 && forall m: nat :: CronMatches(expr, m) ==> YearsRound(Civil(m / 1440)) == 12)
    ensures FiresFrom(expr, from) <==> FirstMatch(expr, from, YearEnd(from, n)).Some?
  {
    hide CronMatches, FirstMatch, Civil, YearEnd;
    FirstMatchFacts(expr, from, YearEnd(from, n));
    if FiresFrom(expr, from) {
      var m: nat :| from <= m && CronMatches(expr, m);
      assert m == m / 1440 * 1440 + m % 1440;
      var k := FiresAgain(expr, m / 1440, m % 1440, from);
      LaterYearEnd(from, YearsRound(Civil(m / 1440)), n);
    }
  }

  lemma LaterYearEnd(from: nat, a: nat, b: nat)
    requires a <= b
    ensures YearEnd(from, a) <= YearEnd(from, b)
  {
    hide DaysBefore, Civil;
    var y := Civil(from / 1440).year;
    YearsGrow(y + a + 1, y + b + 1);
  }

  // ---- what the fields decide ----

  /** The field admits the day of the week, 0 to 6; 7 stands for Sunday too. */
  predicate OnWeekday(field: string, wd: int) {
    FieldMatches(field, wd, 0, 7) || (wd == 0 && FieldMatches(field, 7, 0, 7))
  }

  ghost predicate EveryWeekday(field: string) { forall wd :: 0 <= wd < 7 ==> OnWeekday(field, wd) }

  ghost predicate EveryDay(field: string) { forall d :: 1 <= d <= 31 ==> FieldMatches(field, d, 1, 31) }

  /** A day counts if it meets one of two restricted fields, or both when one of them starts with a star. */
  predicate EitherDay(f: seq<string>)
    requires |f| == 5
  {
    !Starred(f[2]) && !Starred(f[4])
  }

  /** The expression names a date that every year has. */
  ghost predicate CommonDate(f: seq<string>, m: int, d: int)
    requires |f| == 5
  {
    1 <= m <= 12 && 1 <= d <= MonthDays(1, m) && FieldMatches(f[3], m, 1, 12) && FieldMatches(f[2], d, 1, 31)
  }

  /** What a user can read off the fields: the day fields settle on a date of every year, or on a weekday alone. */
  ghost predicate EveryYear(f: seq<string>)
    requires |f| == 5
  {
    || EitherDay(f)
    || EveryDay(f[2])
    || (EveryWeekday(f[4]) && exists m, d :: CommonDate(f, m, d))
  }

  /** Some day of the month falls on the weekday. */
  lemma WeekdayInMonth(y: int, m: int, wd: int) returns (d: int)
    requires y >= 1 && 1 <= m <= 12 && 0 <= wd < 7
    ensures 1 <= d <= 7 && d <= MonthDays(y, m) && Weekday(DayOf(y, m, d)) == wd
  {
    hide DaysBefore, MonthStart;
    var first := DayOf(y, m, 1);
    d := 1 + (wd - Weekday(first)) % 7;
    assert DayOf(y, m, d) == first + (d - 1);
  }

  /** A date's day fires if its month, day and weekday are admitted. */
  lemma DateMatches(f: seq<string>, c: Date)
    requires |f| == 5 && Valid(c) && FieldMatches(f[3], c.month, 1, 12)
    requires var (dom, dow) := (FieldMatches(f[2], c.day, 1, 31), OnWeekday(f[4], Weekday(DayOf(c.year, c.month, c.day))));
             if EitherDay(f) then dom || dow else dom && dow
    ensures DayOf(c.year, c.month, c.day) >= 0 && DayMatches(f, DayOf(c.year, c.month, c.day))
  {
    hide FieldMatches, DayOf, Civil, Weekday, Valid;
    CivilReadsBack(c);
  }

  /** Every year has a day on which such an expression fires. */
  lemma FiringDay(f: seq<string>, y: int) returns (c: Date)
    requires |f| == 5 && y >= 1 && EveryYear(f) && FieldValid(f[3], 1, 12) && FieldValid(f[4], 0, 7)
    ensures Valid(c) && c.year == y && DayOf(y, c.month, c.day) >= 0 && DayMatches(f, DayOf(y, c.month, c.day))
  {
    hide FieldMatches, FieldValid, DayOf, Civil, Weekday, Leap, DayMatches;
    if EveryWeekday(f[4]) && exists m, d :: CommonDate(f, m, d) {
      var m, d :| CommonDate(f, m, d);
      c := Date(y, m, d);
      WeekdayRange(DayOf(y, m, d));
      assert OnWeekday(f[4], Weekday(DayOf(y, m, d)));
    } else {
      ValidFieldFires(f[3], 1, 12);
      var m :| 1 <= m <= 12 && FieldMatches(f[3], m, 1, 12);
      var wd := SomeWeekday(f);
      var d := WeekdayInMonth(y, m, wd);
      c := Date(y, m, d);
    }
    ShortestMonths(y, c.month);
    DateMatches(f, c);
  }

  lemma ShortestMonths(y: int, m: int)
    ensures MonthDays(1, m) <= MonthDays(y, m)
  {
  }

  lemma SomeWeekday(f: seq<string>) returns (wd: int)
    requires |f| == 5 && FieldValid(f[4], 0, 7)
    ensures 0 <= wd < 7 && OnWeekday(f[4], wd)
  {
    hide FieldMatches, FieldValid;
    ValidFieldFires(f[4], 0, 7);
    var v :| 0 <= v <= 7 && FieldMatches(f[4], v, 0, 7);
    wd := v % 7;
  }

  /** An accepted expression fires at some minute of each day that it admits. */
  lemma FiringMinute(f: seq<string>) returns (minute: nat)
    requires |f| == 5 && FieldValid(f[0], 0, 59) && FieldValid(f[1], 0, 23)
    ensures minute < 1440 && FieldMatches(f[0], minute % 60, 0, 59) && FieldMatches(f[1], minute / 60, 0, 23)
  {
    hide FieldMatches, FieldValid;
    ValidFieldFires(f[0], 0, 59);
    ValidFieldFires(f[1], 0, 23);
    var a :| 0 <= a <= 59 && FieldMatches(f[0], a, 0, 59);
    var h :| 0 <= h <= 23 && FieldMatches(f[1], h, 0, 23);
    minute := h * 60 + a;
  }

  lemma MatchOn(expr: string, day: nat, minute: nat)
    requires var f := Fields(expr);
             |f| == 5 && minute < 1440 && DayMatches(f, day) && FieldMatches(f[0], minute % 60, 0, 59)
             && FieldMatches(f[1], minute / 60, 0, 23)
    ensures CronMatches(expr, day * 1440 + minute)
  {
    hide FieldMatches, DayMatches, Fields;
    MinuteParts(day, minute);
  }

  /** A whole year lies between the start and the limit. */
  lemma NextYearInside(from: nat)
    ensures var y := Civil(from / 1440).year;
            from < DaysBefore(y + 1) * 1440 && DaysBefore(y + 2) * 1440 <= Limit(from)
  {
    hide DaysBefore, MonthStart, Civil, Leap;
    var c := Civil(from / 1440);
    InYear(c);
    MonthsGrow(c.year + 5, 1, c.month);
    YearsGrow(c.year + 2, c.year + 5);
    MonthStartsAtZero(c.year + 5);
  }

  lemma MonthStartsAtZero(y: int)
    ensures MonthStart(y, 1) == 0
  {
  }

  /** An accepted expression that names a date of every year, or only weekdays besides its months, is found from
      every start. */
  lemma EveryYearIsFound(expr: string, from: nat)
    requires CronValid(expr) && EveryYear(Fields(expr))
    ensures FirstMatch(expr, from, Limit(from)).Some?
  {
    hide FieldMatches, FieldValid, Civil, DaysBefore, Limit, Fields, FirstMatch, DayMatches, EveryYear, CronMatches, Valid;
    var f := Fields(expr);
    var y := Civil(from / 1440).year + 1;
    var c := FiringDay(f, y);
    var minute := FiringMinute(f);
    MatchOn(expr, DayOf(y, c.month, c.day), minute);
    NextYearInside(from);
    InYear(c);
    FirstMatchFacts(expr, from, Limit(from));
    assert CronMatches(expr, DayOf(y, c.month, c.day) * 1440 + minute);
  }

  // ---- schedules for 29 February ----

  /** The expression fires on 29 February only. */
  ghost predicate LeapDayOnly(expr: string) {
    var f := Fields(expr);
    && |f| == 5
    && forall day: nat :: DayMatches(f, day) <==> Civil(day).month == 2 && Civil(day).day == 29
  }

  lemma NoLeapYear(y: int, z: int)
    requires BeforeGap(y) && y < z <= y + 5
    ensures !Leap(z)
  {
    assert y % 4 == 0;
    if z != y + 4 {
      assert z % 4 != 0;
    }
  }

  lemma LaterLeap(y: int)
    requires BeforeGap(y)
    ensures Leap(y + 8)
  {
    CenturyYears((y + 4) / 100);
  }

  /** The start lies between the last firing minute of a 29 February and the end of the third February after it, and
      the leap day four years later is missing. */
  ghost predicate InGap(expr: string, from: nat, y: int) {
    && BeforeGap(y)
    && DayOf(y, 2, 29) * 1440 <= from < DayOf(y + 3, 3, 1) * 1440
    && NoneBetween(expr, from, DayOf(y, 3, 1) * 1440)
  }

  /** No 29 February between one in March and the next leap year. */
  lemma NoLeapDayBetween(y: int, z: int, day: nat)
    requires BeforeGap(y) && z == y + 8 && DayOf(y, 3, 1) <= day < DayOf(z, 2, 29)
    ensures !(Civil(day).month == 2 && Civil(day).day == 29)
  {
    hide DaysBefore, MonthStart, DayOf;
    var c := Civil(day);
    DatesInOrder(Date(y, 3, 1), c);
    assert Leap(z) by { LaterLeap(y); }
    DatesInOrder(c, Date(z, 2, 29));
    if y < c.year < z {
      NoLeapInside(y, c.year);
    }
  }

  lemma NoLeapInside(y: int, z: int)
    requires BeforeGap(y) && y < z < y + 8
    ensures !Leap(z)
  {
    if z <= y + 5 {
      NoLeapYear(y, z);
    }
  }

  /** In a gap the limit comes before the next leap day. */
  lemma LimitInGap(y: int, from: nat)
    requires BeforeGap(y) && DayOf(y, 2, 29) * 1440 <= from < DayOf(y + 3, 3, 1) * 1440
    ensures Limit(from) <= DayOf(y + 8, 2, 29) * 1440
  {
    hide DaysBefore, Civil, MonthStart;
    var c := Civil(from / 1440);
    assert DayOf(c.year, c.month, c.day) == from / 1440;
    DatesInOrder(c, Date(y + 3, 3, 1));
    NoLeapInside(y, y + 3);
    MonthsOfYear(c.year + 5);
    MonthsOfYear(y + 8);
    if c.year < y + 3 {
      InLaterYear(c);
      YearsGrow(c.year + 6, y + 8);
    } else {
      assert c.month <= 2 by { DateBeforeMarch(c); }
    }
  }

  lemma DateBeforeMarch(c: Date)
    requires Valid(c) && DayOf(c.year, c.month, c.day) < DayOf(c.year, 3, 1)
    ensures c.month <= 2
  {
    if c.month >= 3 {
      MonthsGrow(c.year, 3, c.month);
    }
  }

  /** Five years later the date still lies in that year. */
  lemma InLaterYear(c: Date)
    requires Valid(c)
    ensures DayOf(c.year + 5, c.month, c.day) < DaysBefore(c.year + 6)
  {
    hide DaysBefore, Leap;
    var z := c.year + 5;
    YearLength(z);
    MonthsFillYear(z);
    MonthsGrow(z, c.month + 1, 13);
    MonthsOfYear(z);
  }

  /** A leap day and its minute fire. */
  lemma LeapDayFires(expr: string, y: int, minute: nat)
    requires y >= 1 && Leap(y) && LeapDayOnly(expr) && minute < 1440
    requires FieldMatches(Fields(expr)[0], minute % 60, 0, 59) && FieldMatches(Fields(expr)[1], minute / 60, 0, 23)
    ensures DayOf(y, 2, 29) >= 0 && CronMatches(expr, DayOf(y, 2, 29) * 1440 + minute)
  {
    hide DayMatches, FieldMatches, DayOf, Civil, Fields, CronMatches;
    CivilReadsBack(Date(y, 2, 29));
    MatchOn(expr, DayOf(y, 2, 29), minute);
  }

  /** If the coming leap day lies behind the limit, then at least five years ahead. */
  lemma BeyondLimit(from: nat, r: int, minute: nat)
    requires r >= 1 && Leap(r) && minute < 1440 && DayOf(r, 2, 29) * 1440 + minute >= Limit(from)
    ensures var c := Civil(from / 1440);
            r >= c.year + 5 && (r == c.year + 5 ==> c.month <= 2)
  {
    hide DaysBefore, Civil, Leap, MonthStart;
    var c := Civil(from / 1440);
    InsideYear(r);
    MonthsOfYear(r);
    MonthsGrow(c.year + 5, 1, c.month);
    MonthsOfYear(c.year + 5);
    if r < c.year + 5 {
      YearsGrow(r, c.year + 5);
    } else if r == c.year + 5 && c.month >= 3 {
      MonthsGrow(r, 3, c.month);
    }
  }

  /** Such a leap day follows a gap, and the start lies in it. */
  lemma StartInGap(from: nat, r: int, minute: nat)
    requires r - 8 >= 1 && Leap(r) && BeforeGap(r - 8) && minute < 1440
    requires DayOf(r, 2, 29) * 1440 + minute >= Limit(from)
    requires var y := Civil(from / 1440).year;
             r - 8 < y || (r - 8 == y && DayOf(y, 2, 29) * 1440 <= from)
    ensures DayOf(r - 8, 2, 29) * 1440 <= from < DayOf(r - 5, 3, 1) * 1440 && DayOf(r - 8, 3, 1) * 1440 <= Limit(from)
  {
    hide DaysBefore, Civil, Leap, MonthStart, Limit, BeforeGap, DayOf;
    var c := Civil(from / 1440);
    var y := r - 8;
    assert Leap(y) by { GapIsLeap(y); }
    BeyondLimit(from, r, minute);
    InsideYear(y);
    NextYearInside(from);
    YearsGrow(y + 1, c.year + 2);
    YearStarts(from);
    if y < c.year {
      YearsGrow(y + 1, c.year);
    }
    if c.year < y + 3 {
      YearsGrow(c.year + 1, y + 3);
      MarchInYear(y + 3);
    } else {
      BeforeMarch(c);
    }
  }

  lemma GapIsLeap(y: int)
    requires BeforeGap(y)
    ensures Leap(y)
  {
  }

  lemma MarchInYear(y: int)
    ensures DaysBefore(y) <= DayOf(y, 3, 1)
  {
    hide DaysBefore;
    MonthsOfYear(y);
  }

  lemma BeforeMarch(c: Date)
    requires Valid(c) && c.month <= 2
    ensures DayOf(c.year, c.month, c.day) < DayOf(c.year, 3, 1)
  {
    hide DaysBefore;
    MonthsOfYear(c.year);
  }

  lemma GapAfterMiss(expr: string, from: nat, minute: nat) returns (y: int)
    requires LeapDayOnly(expr) && minute < 1440 && NoneBetween(expr, from, Limit(from))
    requires FieldMatches(Fields(expr)[0], minute % 60, 0, 59) && FieldMatches(Fields(expr)[1], minute / 60, 0, 23)
    ensures InGap(expr, from, y)
  {
    hide DayMatches, FieldMatches, DayOf, Civil, Fields, CronMatches, Leap, Limit, LeapDayOnly, DaysBefore, LeapFrom, BeforeGap;
    var c := Civil(from / 1440);
    var r := LeapFrom(c.year);
    NextLeapYear(c.year);
    YearStarts(from);
    LeapDayFires(expr, r, minute);
    if DayOf(r, 2, 29) * 1440 + minute < from {
      InsideYear(r);
      NextYearInside(from);
      assert r == c.year by {
        if c.year < r {
          YearsGrow(c.year + 1, r);
        }
      }
      r := LeapFrom(c.year + 1);
      NextLeapYear(c.year + 1);
      LeapDayFires(expr, r, minute);
      InsideYear(r);
      YearsGrow(c.year + 1, r);
    }
    BeyondLimit(from, r, minute);
    y := r - 8;
    StartInGap(from, r, minute);
  }

  /** For a schedule of 29 February, from every start: nothing is found exactly in such a gap. */
  lemma LeapDayMissedExactly(expr: string, from: nat, minute: nat)
    requires LeapDayOnly(expr) && minute < 1440
    requires FieldMatches(Fields(expr)[0], minute % 60, 0, 59) && FieldMatches(Fields(expr)[1], minute / 60, 0, 23)
    ensures FirstMatch(expr, from, Limit(from)).None? <==> exists y :: InGap(expr, from, y)
  {
    hide DayMatches, FieldMatches, DayOf, Civil, Fields, CronMatches, Leap, Limit, InGap, FirstMatch, LeapDayOnly;
    FirstMatchFacts(expr, from, Limit(from));
    if FirstMatch(expr, from, Limit(from)).None? {
      var y := GapAfterMiss(expr, from, minute);
    }
    if y :| InGap(expr, from, y) {
      SilentInGap(expr, from, y);
    }
  }

  lemma SilentInGap(expr: string, from: nat, y: int)
    requires LeapDayOnly(expr) && InGap(expr, from, y)
    ensures NoneBetween(expr, from, Limit(from))
  {
    hide DayMatches, FieldMatches, DayOf, Civil, Fields, Limit, BeforeGap;
    LimitInGap(y, from);
    forall m: nat | from <= m < Limit(from) ensures !CronMatches(expr, m) {
      if m >= DayOf(y, 3, 1) * 1440 {
        NoLeapDayBetween(y, y + 8, m / 1440);
      }
    }
  }

  // ---- when "none found" is wrong ----

  /** A coming fire is missed. */
  ghost predicate Missed(expr: string, from: nat) {
    FirstMatch(expr, from, Limit(from)).None? && FiresFrom(expr, from)
  }

  predicate NamesLeapDay(f: seq<string>)
    requires |f| == 5
  {
    FieldMatches(f[3], 2, 1, 12) && FieldMatches(f[2], 29, 1, 31)
  }

  /** Fields that settle on dates, but on none that every year has: only 29 February can be left. */
  lemma OnlyLeapDay(f: seq<string>, day: nat)
    requires |f| == 5 && !EveryYear(f) && EveryWeekday(f[4])
    ensures DayMatches(f, day) <==> NamesLeapDay(f) && Civil(day).month == 2 && Civil(day).day == 29
  {
    hide FieldMatches, Civil, Weekday, DayOf;
    var c := Civil(day);
    WeekdayRange(day);
    assert OnWeekday(f[4], Weekday(day));
    assert !CommonDate(f, c.month, c.day);
    LongerMonths(c);
  }

  lemma LongerMonths(c: Date)
    requires 1 <= c.day <= MonthDays(c.year, c.month)
    ensures c.day > MonthDays(1, c.month) ==> c.month == 2 && c.day == 29
    ensures c.day <= 31 && MonthDays(1, 2) == 28
  {
  }

  lemma LeapDaysGoOn(expr: string, from: nat, minute: nat)
    requires LeapDayOnly(expr) && minute < 1440
    requires FieldMatches(Fields(expr)[0], minute % 60, 0, 59) && FieldMatches(Fields(expr)[1], minute / 60, 0, 23)
    ensures FiresFrom(expr, from)
  {
    hide DayMatches, FieldMatches, DayOf, Civil, Fields, CronMatches, Leap, LeapDayOnly, DaysBefore, LeapFrom, BeforeGap;
    var y := Civil(from / 1440).year;
    var r := LeapFrom(y + 1);
    NextLeapYear(y + 1);
    LeapDayFires(expr, r, minute);
    InsideYear(r);
    NextYearInside(from);
    YearsGrow(y + 1, r);
    assert CronMatches(expr, DayOf(r, 2, 29) * 1440 + minute);
  }

  lemma DatesOnly(expr: string, from: nat)
    requires CronValid(expr) && !EveryYear(Fields(expr)) && EveryWeekday(Fields(expr)[4])
    ensures Missed(expr, from) <==> NamesLeapDay(Fields(expr)) && exists y :: InGap(expr, from, y)
  {
    hide DayMatches, FieldMatches, FieldValid, Civil, Fields, InGap, FirstMatch, EveryYear, EveryWeekday, Limit;
    var f := Fields(expr);
    forall day: nat ensures DayMatches(f, day) <==> NamesLeapDay(f) && Civil(day).month == 2 && Civil(day).day == 29 {
      OnlyLeapDay(f, day);
    }
    if NamesLeapDay(f) {
      var minute := FiringMinute(f);
      LeapDayMissedExactly(expr, from, minute);
      LeapDaysGoOn(expr, from, minute);
    }
  }

  /** The day fields leave some date to fire on, if only in leap years; or the weekdays alone suffice. */
  ghost predicate NamesADate(f: seq<string>)
    requires |f| == 5
  {
    EitherDay(f) || exists m, d :: NamedDate(f, m, d)
  }

  ghost predicate NamedDate(f: seq<string>, m: int, d: int)
    requires |f| == 5
  {
    1 <= m <= 12 && 1 <= d <= MonthDays(4, m) && FieldMatches(f[3], m, 1, 12) && FieldMatches(f[2], d, 1, 31)
  }

  lemma LongestMonths(y: int, m: int)
    ensures MonthDays(y, m) <= MonthDays(4, m)
  {
  }

  /** An accepted expression fires, and goes on firing for ever, exactly if its fields name a date. */
  lemma FiresExactly(expr: string, from: nat)
    requires CronValid(expr)
    ensures FiresFrom(expr, from) <==> NamesADate(Fields(expr))
  {
    hide CronMatches, FirstMatch, Limit, Fields, FieldMatches, FieldValid, NamedDate, EveryYear, NamesADate;
    var f := Fields(expr);
    if FiresFrom(expr, from) {
      var m: nat :| from <= m && CronMatches(expr, m);
      FireNamesDate(expr, m);
    }
    if NamesADate(f) {
      FiresForEver(expr, from);
    }
  }

  lemma FireNamesDate(expr: string, m: nat)
    requires CronMatches(expr, m) && |Fields(expr)| == 5
    ensures NamesADate(Fields(expr))
  {
    hide Fields, FieldMatches, Civil, Weekday;
    var c := Civil(m / 1440);
    LongestMonths(c.year, c.month);
    if !EitherDay(Fields(expr)) {
      assert NamedDate(Fields(expr), c.month, c.day);
    }
  }

  lemma FiresForEver(expr: string, from: nat)
    requires CronValid(expr) && NamesADate(Fields(expr))
    ensures FiresFrom(expr, from)
  {
    hide CronMatches, FirstMatch, Limit, Fields, FieldMatches, FieldValid, Civil, DayOf, Weekday, YearEnd, DayMatches;
    var f := Fields(expr);
    if EitherDay(f) {
      EveryYearIsFound(expr, from);
      FirstMatchFacts(expr, from, Limit(from));
    } else {
      var m, d :| NamedDate(f, m, d);
      var wd := SomeWeekday(f);
      var day := DayAgain(Date(4, m, d), wd, from);
      BothMatch(f, day, m, d, wd);
      var minute := FiringMinute(f);
      MatchOn(expr, day, minute);
      assert CronMatches(expr, day * 1440 + minute);
    }
  }

  lemma BothMatch(f: seq<string>, day: nat, m: int, d: int, wd: int)
    requires |f| == 5 && NamedDate(f, m, d) && OnWeekday(f[4], wd)
    requires Weekday(day) == wd && Civil(day).month == m && Civil(day).day == d
    ensures DayMatches(f, day)
  {
    hide FieldMatches, Civil, Weekday;
  }

  /** Over all accepted expressions and all starts. When the fields name a date of every year, every day of the
      month, or restrict both day fields by numbers, nothing is ever missed. When they only name dates, a fire is
      missed exactly for 29 February and in the gap around a missing leap day. In every case, so also when a
      stepped star and another restriction have to agree, "none found" is wrong exactly if the fields name a date at
      all: what they name does fire, within 12 years, or 40 if it is 29 February only. */
  lemma MissedExactly(expr: string, from: nat)
    requires CronValid(expr)
    ensures EveryYear(Fields(expr)) ==> !Missed(expr, from)
    ensures !EveryYear(Fields(expr)) && EveryWeekday(Fields(expr)[4]) ==>
              (Missed(expr, from) <==> NamesLeapDay(Fields(expr)) && exists y :: InGap(expr, from, y))
    ensures Missed(expr, from) <==> FirstMatch(expr, from, Limit(from)).None? && NamesADate(Fields(expr))
    ensures Missed(expr, from) ==> FirstMatch(expr, from, YearEnd(from, 40)).Some?
    ensures Missed(expr, from) && !NamesLeapDay(Fields(expr)) ==> FirstMatch(expr, from, YearEnd(from, 12)).Some?
  {
    hide CronMatches, FirstMatch, Limit, Fields, EveryYear, EveryWeekday, NamesLeapDay, InGap, FieldValid, FiresFrom,
      NamesADate, YearEnd;
    FiresExactly(expr, from);
    FoundByThen(expr, from, 40);
    if EveryYear(Fields(expr)) {
      EveryYearIsFound(expr, from);
    } else {
      if EveryWeekday(Fields(expr)[4]) {
        DatesOnly(expr, from);
      }
      if !NamesLeapDay(Fields(expr)) {
        forall m: nat | CronMatches(expr, m) ensures YearsRound(Civil(m / 1440)) == 12 {
          NoLeapDayNamed(expr, m);
        }
        FoundByThen(expr, from, 12);
      }
    }
  }

  lemma NoLeapDayNamed(expr: string, m: nat)
    requires CronMatches(expr, m) && |Fields(expr)| == 5 && !EveryYear(Fields(expr)) && !NamesLeapDay(Fields(expr))
    ensures YearsRound(Civil(m / 1440)) == 12
  {
    hide Fields, FieldMatches, Civil, Weekday;
  }

  // ---- two such expressions ----

  /** The text of a schedule for 29 February. */
  function LeapDayText(hour: nat, minute: nat): string {
    Text([Digits(minute), Digits(hour), Digits(29), Digits(2), "*"])
  }

  lemma LeapDayTextReads(hour: nat, minute: nat)
    requires hour < 24 && minute < 60
    ensures var expr := LeapDayText(hour, minute);
            && CronValid(expr) && LeapDayOnly(expr)
            && FieldMatches(Fields(expr)[0], minute, 0, 59) && FieldMatches(Fields(expr)[1], hour, 0, 23)
  {
    hide Digits, FieldMatches, FieldValid, Civil, Text, Fields;
    var f := [Digits(minute), Digits(hour), Digits(29), Digits(2), "*"];
    DigitsAreWord(minute);
    DigitsAreWord(hour);
    DigitsAreWord(29);
    DigitsAreWord(2);
    StarMatches(0, 0, 7);
    TextReads(f);
    NumberMatches(minute, minute, 0, 59);
    NumberMatches(hour, hour, 0, 23);
    NumberMatches(29, 29, 1, 31);
    NumberMatches(2, 2, 1, 12);
    forall day: nat ensures DayMatches(f, day) <==> Civil(day).month == 2 && Civil(day).day == 29 {
      NumberMatches(29, Civil(day).day, 1, 31);
      NumberMatches(2, Civil(day).month, 1, 12);
      StarMatches(Weekday(day), 0, 7);
    }
  }

  /** Before each missing leap day such a schedule is forecast never to fire, for three years: from 1 March on,
      though it will eight years after it last did. 2096 is the next such year. */
  lemma LeapDayForecastGap(hour: nat, minute: nat, y: int)
    requires hour < 24 && minute < 60 && BeforeGap(y)
    ensures var expr := LeapDayText(hour, minute);
            && DayOf(y, 3, 1) >= 0 && Missed(expr, DayOf(y, 3, 1) * 1440)
            && DayOf(y + 8, 2, 29) >= 0 && CronMatches(expr, DayOf(y + 8, 2, 29) * 1440 + hour * 60 + minute)
    ensures BeforeGap(2096)
  {
    hide FieldMatches, FieldValid, Civil, Fields, LeapDayOnly, LeapDayText, CronMatches, FirstMatch, Limit, Leap, DaysBefore;
    var expr := LeapDayText(hour, minute);
    var m := hour * 60 + minute;
    LeapDayTextReads(hour, minute);
    GapIsLeap(y);
    LaterLeap(y);
    LeapDayFires(expr, y, m);
    LeapDayFires(expr, y + 8, m);
    GapYears(y);
    assert InGap(expr, DayOf(y, 3, 1) * 1440, y);
    LeapDayMissedExactly(expr, DayOf(y, 3, 1) * 1440, m);
    LeapDaysGoOn(expr, DayOf(y, 3, 1) * 1440, m);
  }

  lemma GapYears(y: int)
    requires BeforeGap(y)
    ensures DayOf(y, 2, 29) < DayOf(y, 3, 1) < DayOf(y + 3, 3, 1)
    ensures BeforeGap(2096)
  {
    hide DaysBefore;
    InsideYear(y);
    MarchInYear(y + 3);
    YearsGrow(y + 1, y + 3);
  }

  // ---- a stepped star and a weekday that have to agree ----

  /** Every 31st day from the first, in January, on a Monday. */
  const NEW_YEAR_MONDAY := Text([Digits(0), Digits(0), "*/" + Digits(31), Digits(1), Digits(1)])

  lemma FiveWords(a: string, b: string, c: string, d: string, e: string)
    ensures Text([a, b, c, d, e]) == a + " " + b + " " + c + " " + d + " " + e
  {
    assert [a, b, c, d, e][1..] == [b, c, d, e] && [b, c, d, e][1..] == [c, d, e] && [c, d, e][1..] == [d, e];
    assert [d, e][1..] == [e];
    assert Text([d, e]) == d + " " + e;
    assert Text([c, d, e]) == c + " " + Text([d, e]);
    assert Text([b, c, d, e]) == b + " " + Text([c, d, e]);
    assert Text([a, b, c, d, e]) == a + " " + Text([b, c, d, e]);
    assert a + " " + (b + " " + (c + " " + (d + " " + e))) == a + " " + b + " " + c + " " + d + " " + e;
  }

  lemma TextsShown()
    ensures LeapDayText(0, 0) == "0 0 29 2 *" && NEW_YEAR_MONDAY == "0 0 */31 1 1"
  {
    hide Text;
    FiveWords(Digits(0), Digits(0), Digits(29), Digits(2), "*");
    FiveWords(Digits(0), Digits(0), "*/" + Digits(31), Digits(1), Digits(1));
    assert Digits(0) == "0" && Digits(1) == "1" && Digits(2) == "2" && Digits(29) == "29" && Digits(31) == "31";
  }

  lemma NewYearMondayReads()
    ensures CronValid(NEW_YEAR_MONDAY) && !EveryYear(Fields(NEW_YEAR_MONDAY)) && !EveryWeekday(Fields(NEW_YEAR_MONDAY)[4])
    ensures forall day: nat :: DayMatches(Fields(NEW_YEAR_MONDAY), day) <==>
                                 Civil(day).month == 1 && Civil(day).day == 1 && Weekday(day) == 1
    ensures FieldMatches(Fields(NEW_YEAR_MONDAY)[0], 0, 0, 59) && FieldMatches(Fields(NEW_YEAR_MONDAY)[1], 0, 0, 23)
  {
    hide Digits, FieldMatches, FieldValid, Civil, Weekday, Text, Fields;
    var f := [Digits(0), Digits(0), "*/" + Digits(31), Digits(1), Digits(1)];
    DigitsAreWord(0);
    DigitsAreWord(1);
    SteppedStarMatches(31, 2, 1, 31);
    TextReads(f);
    NumberMatches(0, 0, 0, 59);
    NumberMatches(0, 0, 0, 23);
    NumberMatches(1, 1, 1, 12);
    NumberMatches(1, 2, 0, 7);
    assert !FieldMatches(f[2], 2, 1, 31);
    assert !OnWeekday(f[4], 2);
    forall day: nat
      ensures DayMatches(f, day) <==> Civil(day).month == 1 && Civil(day).day == 1 && Weekday(day) == 1
    {
      NumberMatches(1, Civil(day).month, 1, 12);
      SteppedStarMatches(31, Civil(day).day, 1, 31);
      NumberMatches(1, Weekday(day), 0, 7);
      NumberMatches(1, 7, 0, 7);
    }
  }

  /** 1 January is no Monday from 2019 to 2023, and one in 2024. */
  lemma NewYears(y: int)
    ensures 2019 <= y <= 2023 ==> Weekday(DayOf(y, 1, 1)) != 1
    ensures Weekday(DayOf(2024, 1, 1)) == 1
  {
    assert DayOf(2019, 1, 1) == 737059 && DayOf(2020, 1, 1) == 737424 && DayOf(2021, 1, 1) == 737790
        && DayOf(2022, 1, 1) == 738155 && DayOf(2023, 1, 1) == 738520 && DayOf(2024, 1, 1) == 738885;
  }

  /** The limit is too short for near dates as well: searched from 2 January 2018, this accepted expression is
      said never to fire, though it does on 1 January 2024. */
  lemma WeekdayForecastGap()
    ensures CronValid(NEW_YEAR_MONDAY) && DayOf(2018, 1, 2) >= 0 && DayOf(2024, 1, 1) >= 0
    ensures Missed(NEW_YEAR_MONDAY, DayOf(2018, 1, 2) * 1440)
    ensures CronMatches(NEW_YEAR_MONDAY, DayOf(2024, 1, 1) * 1440)
  {
    hide FieldMatches, FieldValid, Civil, Fields, CronMatches, DayMatches, FirstMatch, Limit, DayOf, NEW_YEAR_MONDAY;
    var (expr, from) := (NEW_YEAR_MONDAY, DayOf(2018, 1, 2) * 1440);
    NewYearMondayReads();
    NewYears(2024);
    CivilReadsBack(Date(2018, 1, 2));
    CivilReadsBack(Date(2024, 1, 1));
    MatchOn(expr, DayOf(2024, 1, 1), 0);
    FirstMatchFacts(expr, from, Limit(from));
    LimitOfDay(DayOf(2018, 1, 2));
    forall m: nat | from <= m < Limit(from) ensures !DayMatches(Fields(expr), m / 1440) {
      NoNewYearMonday(m / 1440);
    }
    assert NoneBetween(expr, from, Limit(from)) by {
      SilentDays(expr, from, Limit(from));
    }
    InOrder();
    assert CronMatches(expr, DayOf(2024, 1, 1) * 1440);
  }

  lemma SilentDays(expr: string, a: int, b: int)
    requires |Fields(expr)| == 5 && forall m: nat :: a <= m < b ==> !DayMatches(Fields(expr), m / 1440)
    ensures NoneBetween(expr, a, b)
  {
    hide DayMatches, FieldMatches, Fields;
    forall m: nat | a <= m < b ensures !CronMatches(expr, m) {
      assert !DayMatches(Fields(expr), m / 1440);
    }
  }

  lemma InOrder()
    ensures DayOf(2018, 1, 2) < DayOf(2024, 1, 1)
  {
  }

  lemma NoNewYearMonday(day: nat)
    requires DayOf(2018, 1, 2) <= day < DayOf(2023, 1, 2)
    ensures !(Civil(day).month == 1 && Civil(day).day == 1 && Weekday(day) == 1)
  {
    hide DaysBefore, MonthStart, DayOf;
    var c := Civil(day);
    DatesInOrder(Date(2018, 1, 2), c);
    DatesInOrder(c, Date(2023, 1, 2));
    NewYears(c.year);
    FirstBeforeSecond(2018);
  }

  lemma FirstBeforeSecond(y: int)
    ensures DayOf(y, 1, 1) < DayOf(y, 1, 2)
  {
  }
}
