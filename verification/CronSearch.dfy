/** The search for the next minute at which a cron expression fires. Minutes are counted from
    1 January of year 1 in the wall clock of a zone with a fixed offset. */
module CronSearch {
  import opened Ordering
  import opened CivilDate
  import opened CronFields

  /** The same time of day five years later; 29 February runs on to 1 March. */
  function Limit(t: nat): int {
    var c := Civil(t / 1440);
    DayOf(c.year + 5, c.month, c.day) * 1440 + t % 1440
  }

  /** No minute of the stretch fires. */
  ghost predicate NoneBetween(expr: string, a: int, b: int) {
    forall m: nat :: a <= m < b ==> !CronMatches(expr, m)
  }

  /** The simple search: minute by minute. */
  function FirstMatch(expr: string, from: nat, limit: int): Option<nat>
    decreases limit - from
  {
    if from >= limit then None
    else if CronMatches(expr, from) then Some(from)
    else FirstMatch(expr, from + 1, limit)
  }

  lemma {:induction false} FirstMatchFacts(expr: string, from: nat, limit: int)
    ensures match FirstMatch(expr, from, limit)
            case Some(m) => from <= m < limit && CronMatches(expr, m) && NoneBetween(expr, from, m)
            case None => NoneBetween(expr, from, limit)
    decreases limit - from
  {
    hide CronMatches;
    if from < limit && !CronMatches(expr, from) {
      FirstMatchFacts(expr, from + 1, limit);
    }
  }

  lemma {:induction false} FirstMatchSkips(expr: string, from: nat, t: nat, limit: int)
    requires from <= t && NoneBetween(expr, from, t)
    ensures t < limit ==> FirstMatch(expr, from, limit) == FirstMatch(expr, t, limit)
    ensures t >= limit ==> FirstMatch(expr, from, limit) == None
    decreases t - from
  {
    hide CronMatches;
    if from < t && from < limit {
      assert !CronMatches(expr, from);
      FirstMatchSkips(expr, from + 1, t, limit);
    }
  }

  lemma FiveYearsAhead(t: nat)
    ensures Limit(t) > t
  {
    hide MonthStart, DaysBefore, Civil;
    var c := Civil(t / 1440);
    YearLength(c.year);
    YearLength(c.year + 1);
    YearLength(c.year + 2);
    YearLength(c.year + 3);
    YearLength(c.year + 4);
    SameMonthLater(c.year, c.year + 5, c.month);
  }

  /** Months start within a day of one another in all years. */
  lemma SameMonthLater(y: int, z: int, m: int)
    requires 1 <= m <= 12
    ensures MonthStart(z, m) >= MonthStart(y, m) - 1
  {
    LongMonths(y, m);
    LongMonths(z, m);
  }

  lemma {:induction false} LongMonths(y: int, m: int)
    requires 1 <= m <= 12
    ensures MonthStart(y, m) == MonthStart(1, m) + (if m > 2 && Leap(y) then 1 else 0)
    decreases m
  {
    if m > 1 {
      LongMonths(y, m - 1);
    }
  }

  lemma SkipDay(expr: string, t: nat)
    requires |Fields(expr)| == 5 && !DayMatches(Fields(expr), t / 1440)
    ensures NoneBetween(expr, t, (t / 1440 + 1) * 1440)
  {
    hide DayMatches, FieldMatches;
    forall m: nat | t <= m < (t / 1440 + 1) * 1440 ensures !CronMatches(expr, m) {
      assert m / 1440 == t / 1440;
    }
  }

  lemma SkipHour(expr: string, t: nat)
    requires |Fields(expr)| == 5 && !FieldMatches(Fields(expr)[1], t / 60 % 24, 0, 23)
    ensures NoneBetween(expr, t, (t / 60 + 1) * 60)
  {
    hide DayMatches, FieldMatches;
    forall m: nat | t <= m < (t / 60 + 1) * 60 ensures !CronMatches(expr, m) {
      assert m / 60 == t / 60;
    }
  }

  /** The day after, through the date arithmetic of the source. */
  function StartOfNextDay(t: nat): int {
    var c := Civil(t / 1440);
    DayOf(c.year, c.month, c.day + 1) * 1440
  }

  function StartOfNextHour(t: nat): int {
    var c := Civil(t / 1440);
    DayOf(c.year, c.month, c.day) * 1440 + (t / 60 % 24 + 1) * 60
  }

  lemma NextStarts(t: nat)
    ensures StartOfNextDay(t) == (t / 1440 + 1) * 1440
    ensures StartOfNextHour(t) == (t / 60 + 1) * 60
  {
    assert t / 60 / 24 == t / 1440;
  }

  lemma MatchAtOnce(expr: string, t: nat, limit: int)
    requires t < limit && CronMatches(expr, t)
    ensures FirstMatch(expr, t, limit) == Some(t)
  {
  }

  /** The first minute from `from` on that fires, before the five-year limit. */
  method NextCronTime(expr: string, from: nat) returns (r: Option<nat>)
    ensures r == FirstMatch(expr, from, Limit(from))
  {
    hide DayMatches, FieldMatches, Limit, Fields, StartOfNextDay, StartOfNextHour, FirstMatch;
    var f := Fields(expr);
    FirstMatchFacts(expr, from, Limit(from));
    if |f| != 5 {
      return None;
    }
    var t: nat := from;
    var limit := Limit(t);
    while t < limit
      invariant from <= t && NoneBetween(expr, from, t)
      decreases limit - t
    {
      NextStarts(t);
      if !DayMatches(f, t / 1440) {
        SkipDay(expr, t);
        t := StartOfNextDay(t);
        continue;
      }
      if !FieldMatches(f[1], t / 60 % 24, 0, 23) {
        SkipHour(expr, t);
        var n := StartOfNextHour(t);
        if n <= t {
          n := t + 60;
        }
        t := n;
        continue;
      }
      if FieldMatches(f[0], t % 60, 0, 59) {
        FirstMatchSkips(expr, from, t, limit);
        MatchAtOnce(expr, t, limit);
        return Some(t);
      }
      t := t + 1;
    }
    FirstMatchSkips(expr, from, t, limit);
    return None;
  }

  lemma DatesInOrder(a: Date, b: Date)
    requires Valid(a) && Valid(b) && DayOf(a.year, a.month, a.day) <= DayOf(b.year, b.month, b.day)
    ensures a.year <= b.year
    ensures a.year == b.year ==> a.month <= b.month
  {
    hide DaysBefore, MonthStart, Leap, MonthDays;
    InYear(a);
    InYear(b);
    if b.year < a.year {
      YearsGrow(b.year, a.year);
    } else if a.year == b.year && b.month < a.month {
      MonthsGrow(a.year, b.month, a.month);
    }
  }

  lemma LimitOfDay(d: nat)
    ensures Limit(d * 1440) == DayOf(Civil(d).year + 5, Civil(d).month, Civil(d).day) * 1440
  {
    hide DayOf, Civil;
    MinuteParts(d, 0);
  }

  lemma MinuteParts(d: nat, minute: nat)
    requires minute < 1440
    ensures var m := d * 1440 + minute;
            m / 1440 == d && m % 1440 == minute && m % 60 == minute % 60 && m / 60 % 24 == minute / 60
  {
    var m := d * 1440 + minute;
    assert m / 60 == d * 24 + minute / 60;
    assert m % 60 == m - 60 * (m / 60);
  }
}
