/** When a date comes back to a weekday, and so how long a cron expression that fires at all can stay silent. */
module CronReturns {
  import opened CivilDate
  import opened CronFields
  import opened CronSearch

  // ---- leap years ----

  /** The year is a leap year, and the next one that should be is not. */
  predicate BeforeGap(y: int) { y >= 1 && Leap(y) && (y + 4) % 100 == 0 && (y + 4) % 400 != 0 }

  /** Around a century. */
  lemma CenturyYears(c: int)
    ensures (100 * c) % 4 == 0 && (100 * c + 4) % 4 == 0 && (100 * c - 4) % 4 == 0
    ensures (100 * c + 4) % 100 == 4 && (100 * c - 4) % 100 == 96
  {
    Fourth(25 * c);
    Fourth(25 * c + 1);
    Fourth(25 * c - 1);
    InCentury(c, 4);
    InCentury(c - 1, 96);
  }

  lemma Fourth(q: int)
    ensures (4 * q) % 4 == 0
  {
  }

  lemma InCentury(c: int, r: int)
    requires 0 <= r < 100
    ensures (100 * c + r) % 100 == r
  {
  }

  /** The first leap year from `y` on. */
  function LeapFrom(y: int): int {
    var r := (y + 3) / 4 * 4;
    if Leap(r) then r else r + 4
  }

  lemma NextLeapYear(y: int)
    requires y >= 1
    ensures var r := LeapFrom(y);
            && r >= y && Leap(r) && (forall z :: y <= z < r ==> !Leap(z))
            && (r > y + 3 ==> BeforeGap(r - 8) && 1 <= r - 8 < y && r <= y + 7)
  {
    hide Leap, BeforeGap;
    var q := (y + 3) / 4;
    Fourth(q);
    FourthYears(4 * q);
    forall z | y <= z < LeapFrom(y) ensures !Leap(z) {
      if z != 4 * q {
        NoMultiple(q, z - 4 * q);
        NotFourth(z);
      }
    }
  }

  /** Around a year divisible by four. */
  lemma FourthYears(r: int)
    requires r % 4 == 0
    ensures !Leap(r) ==> Leap(r + 4) && Leap(r - 4) && r % 100 == 0 && (r > 0 ==> r > 4 && BeforeGap(r - 4))
  {
    if !Leap(r) {
      assert r == 100 * (r / 100);
      CenturyYears(r / 100);
    }
  }

  lemma MonthsOfYear(y: int)
    ensures MonthStart(y, 1) == 0 && MonthStart(y, 2) == 31 && MonthStart(y, 3) == 31 + MonthDays(y, 2)
  {
  }

  lemma InsideYear(y: int)
    requires y >= 1 && Leap(y)
    ensures DaysBefore(y) <= DayOf(y, 2, 29) && DayOf(y, 3, 1) == DayOf(y, 2, 29) + 1 && DayOf(y, 3, 1) < DaysBefore(y + 1)
  {
    hide DaysBefore;
    YearLength(y);
    MonthsOfYear(y);
  }

  lemma YearStarts(from: nat)
    ensures var c := Civil(from / 1440);
            DayOf(c.year, c.month, c.day) == from / 1440 && DaysBefore(c.year) <= from / 1440
  {
    hide DaysBefore, Civil, MonthStart;
    InYear(Civil(from / 1440));
  }

  // ---- weekdays of one date ----

  /** How many days a date moves on in `k` years, beyond 364 a year: one a year, and one for every leap day passed. */
  function Drift(b: int, k: nat): nat {
    if k == 0 then 0 else Drift(b, k - 1) + (if Leap(b + k - 1) then 2 else 1)
  }

  /** The first year whose leap day a date passes on its way to the next year. */
  function Passes(y: int, m: int): int { if m > 2 then y + 1 else y }

  lemma {:induction false} DateDrifts(y: int, m: int, d: int, k: nat)
    requires y >= 1 && 1 <= m <= 12
    ensures DayOf(y + k, m, d) == DayOf(y, m, d) + 364 * k + Drift(Passes(y, m), k)
  {
    hide DaysBefore, MonthStart, Leap;
    if k > 0 {
      DateDrifts(y, m, d, k - 1);
      YearLength(y + k - 1);
      LongMonths(y + k - 1, m);
      LongMonths(y + k, m);
    }
  }

  lemma WeekdayDrifts(y: int, m: int, d: int, k: nat)
    requires y >= 1 && 1 <= m <= 12
    ensures Weekday(DayOf(y + k, m, d)) == (Weekday(DayOf(y, m, d)) + Drift(Passes(y, m), k)) % 7
  {
    hide DayOf;
    DateDrifts(y, m, d, k);
    WholeWeeks(DayOf(y, m, d) + 1, k, Drift(Passes(y, m), k));
  }

  lemma WholeWeeks(a: int, k: nat, g: int)
    ensures (a + 364 * k + g) % 7 == (a % 7 + g) % 7
  {
    assert a + 364 * k + g == 7 * (a / 7 + 52 * k) + (a % 7 + g);
    DropWeeks(a / 7 + 52 * k, a % 7 + g);
  }

  lemma DropWeeks(q: int, r: int)
    ensures (7 * q + r) % 7 == r % 7
  {
  }

  /** Of the leap years in any twelve years, four apart, at most one is missing. */
  lemma LeapsInTwelve(b: int, i: nat, j: nat)
    requires i < j < 12 && (b + i) % 4 == 0 && (b + j) % 4 == 0
    ensures Leap(b + i) || Leap(b + j)
  {
    OneCentury(b + i, b + j);
  }

  lemma MissingIsCentury(y: int)
    requires y % 4 == 0 && !Leap(y)
    ensures y == 100 * (y / 100)
  {
  }

  /** Of two fourth years less than a century apart one is a leap year. */
  lemma OneCentury(a: int, b: int)
    requires a % 4 == 0 && b % 4 == 0 && a < b < a + 100
    ensures Leap(a) || Leap(b)
  {
    hide Leap;
    if !Leap(a) && !Leap(b) {
      MissingIsCentury(a);
      MissingIsCentury(b);
      assert false;
    }
  }

  /** Twelve years of drift, and how the leap days fall in them. */
  ghost predicate Twelve(g: seq<int>, l: seq<bool>, r: nat) {
    && |g| == 12 && |l| == 11 && r < 4 && g[0] == 0
    && (forall k :: 0 <= k < 11 ==> g[k + 1] == g[k] + (if l[k] then 2 else 1))
    && (forall k :: 0 <= k < 11 && k % 4 != r ==> !l[k])
    && (l[r] || l[r + 4]) && (r < 3 ==> (l[r + 4] || l[r + 8]) && (l[r] || l[r + 8]))
  }

  lemma TwelveHit(g: seq<int>, l: seq<bool>, r: nat, t: nat) returns (i: nat)
    requires Twelve(g, l, r) && t < 7
    ensures i < 12 && (g[i] == t || g[i] == t + 7)
  {
    i := 0;
    while g[i + 1] <= t
      invariant i < 11 && i <= g[i] <= t
    {
      i := i + 1;
    }
    if g[i] != t {
      assert l[i] && g[i] == t - 1 && i % 4 == r;
      AfterJump(g, l, r, i);
      i := if l[i + 4] then i + 6 else i + 7;
    }
  }

  /** A leap day makes the drift jump over one value; it comes to the same weekday six or seven years later. */
  lemma AfterJump(g: seq<int>, l: seq<bool>, r: nat, i: nat)
    requires Twelve(g, l, r) && i < 6 && l[i] && i <= g[i] <= 5
    ensures i % 4 == r && if l[i + 4] then g[i + 6] == g[i] + 8 else i + 7 < 12 && g[i + 7] == g[i] + 8
  {
    hide Twelve;
    StepAt(g, l, r, i);
    StepAt(g, l, r, i + 1);
    StepAt(g, l, r, i + 2);
    StepAt(g, l, r, i + 3);
    StepAt(g, l, r, i + 4);
    StepAt(g, l, r, i + 5);
    if !l[i + 4] {
      if i == 5 {
        LateJump(g, l, r);
      }
      StepAt(g, l, r, i + 6);
    }
  }

  lemma StepAt(g: seq<int>, l: seq<bool>, r: nat, k: nat)
    requires Twelve(g, l, r) && k < 11
    ensures |g| == 12 && |l| == 11 && g[k + 1] == g[k] + (if l[k] then 2 else 1) && (l[k] ==> k % 4 == r)
  {
  }

  /** A first leap day in the sixth year means that the second year's is missing, so the tenth year's is not. */
  lemma LateJump(g: seq<int>, l: seq<bool>, r: nat)
    requires Twelve(g, l, r) && l[5] && g[5] == 5
    ensures l[9]
  {
    StepAt(g, l, r, 0);
    StepAt(g, l, r, 1);
    StepAt(g, l, r, 2);
    StepAt(g, l, r, 3);
    StepAt(g, l, r, 4);
  }

  /** A date that every year has falls on each weekday once in any twelve years. */
  lemma CommonReturns(y: int, m: int, d: int, wd: int) returns (z: int)
    requires y >= 1 && 1 <= m <= 12 && 0 <= wd < 7
    ensures y <= z < y + 12 && Weekday(DayOf(z, m, d)) == wd
  {
    hide DayOf, Weekday, Leap;
    var b := Passes(y, m);
    var g := seq(12, k requires 0 <= k < 12 => Drift(b, k));
    var l := seq(11, k requires 0 <= k < 11 => Leap(b + k));
    var r := (0 - b) % 4;
    WeekdayRange(DayOf(y, m, d));
    var t := (wd - Weekday(DayOf(y, m, d))) % 7;
    TwelveYears(b, r, g, l);
    var i := TwelveHit(g, l, r, t);
    z := y + i;
    WeekdayDrifts(y, m, d, i);
    SameResidue(Weekday(DayOf(y, m, d)), wd, Drift(b, i));
  }

  lemma SameResidue(a: int, wd: int, g: int)
    requires 0 <= a < 7 && 0 <= wd < 7 && (g == (wd - a) % 7 || g == (wd - a) % 7 + 7)
    ensures (a + g) % 7 == wd
  {
    var q := (wd - a) / 7;
    assert wd - a == 7 * q + (wd - a) % 7;
    DropWeeks(if g == (wd - a) % 7 then -q else 1 - q, wd);
  }

  lemma WeekdayRange(day: int)
    ensures 0 <= Weekday(day) < 7
  {
  }

  lemma TwelveYears(b: int, r: nat, g: seq<int>, l: seq<bool>)
    requires b >= 1 && r == (0 - b) % 4
    requires |g| == 12 && forall k :: 0 <= k < 12 ==> g[k] == Drift(b, k)
    requires |l| == 11 && forall k :: 0 <= k < 11 ==> l[k] == Leap(b + k)
    ensures Twelve(g, l, r)
  {
    hide Leap;
    var c := (b + r) / 4;
    assert b + r == 4 * c;
    forall k | 0 <= k < 11 && k % 4 != r ensures !l[k] {
      OffFourth(c, r, k);
      NotFourth(b + k);
    }
    Fourth(c);
    Fourth(c + 1);
    Fourth(c + 2);
    LeapsInTwelve(b, r, r + 4);
    if r < 3 {
      LeapsInTwelve(b, r + 4, r + 8);
      LeapsInTwelve(b, r, r + 8);
    }
  }

  lemma OffFourth(c: int, r: nat, k: nat)
    requires r < 4 && k % 4 != r
    ensures (4 * c - r + k) % 4 != 0
  {
    assert 4 * c - r + k == 4 * (c + k / 4) + (k % 4 - r);
    NoMultiple(c + k / 4, k % 4 - r);
  }

  lemma NoMultiple(q: int, d: int)
    requires -4 < d < 4 && d != 0
    ensures (4 * q + d) % 4 != 0
  {
  }

  lemma NotFourth(y: int)
    ensures y % 4 != 0 ==> !Leap(y)
  {
  }

  // ---- weekdays of 29 February ----

  /** From one leap year on the drift of four years is five, and four where the leap day is missing. */
  lemma FourYearsDrift(z: int, j: nat)
    requires z % 4 == 0
    ensures Drift(z, 4 * j + 4) == Drift(z, 4 * j) + (if Leap(z + 4 * j) then 5 else 4)
  {
    hide Leap;
    var b := z + 4 * j;
    NotFourth(b + 1);
    NotFourth(b + 2);
    NotFourth(b + 3);
    assert Drift(z, 4 * j + 3) == Drift(z, 4 * j + 1) + 2;
  }

  lemma {:induction false} LeapDrift(z: int, j: nat, e: nat)
    requires Leap(z) && forall i :: 0 <= i < j && i != e ==> Leap(z + 4 * i)
    ensures Drift(z, 4 * j) == 5 * j - (if e < j && !Leap(z + 4 * e) then 1 else 0)
  {
    if j > 0 {
      LeapDrift(z, j - 1, e);
      FourYearsDrift(z, j - 1);
    }
  }

  /** Within forty years at most one leap day is missing. */
  lemma OneMissing(z: int, i: nat, j: nat)
    requires z % 4 == 0 && i < j <= i + 20
    ensures Leap(z + 4 * i) || Leap(z + 4 * j)
  {
    hide Leap;
    assert z + 4 * i == 4 * (z / 4 + i) && z + 4 * j == 4 * (z / 4 + j);
    Fourth(z / 4 + i);
    Fourth(z / 4 + j);
    OneCentury(z + 4 * i, z + 4 * j);
  }

  /** The first of the next ten fourth years whose leap day is missing, if any. */
  lemma FindMissing(z: int) returns (e: nat)
    requires Leap(z)
    ensures e <= 10 && forall i :: 0 <= i < 10 && i != e ==> Leap(z + 4 * i)
    ensures e < 10 ==> !Leap(z + 4 * e)
  {
    hide Leap;
    e := 0;
    while e < 10 && Leap(z + 4 * e)
      invariant e <= 10 && forall i :: 0 <= i < e ==> Leap(z + 4 * i)
    {
      e := e + 1;
    }
    LeapIsFourth(z);
    forall i | e < i < 10 ensures Leap(z + 4 * i) {
      OneMissing(z, e, i);
    }
  }

  lemma LeapIsFourth(z: int)
    requires Leap(z)
    ensures z % 4 == 0
  {
  }

  /** From one leap year on 29 February falls on each weekday within 36 years, and within 24 if no leap day is
      missing meanwhile. */
  lemma LeapReturns(z: int, wd: int) returns (u: int)
    requires z >= 1 && Leap(z) && 0 <= wd < 7
    ensures z <= u <= z + 36 && Leap(u) && Weekday(DayOf(u, 2, 29)) == wd
    ensures (forall i :: 0 <= i < 7 ==> Leap(z + 4 * i)) ==> u <= z + 24
  {
    hide DayOf, Weekday, Leap;
    var a := Weekday(DayOf(z, 2, 29));
    WeekdayRange(DayOf(z, 2, 29));
    var j: nat := (3 * (wd - a)) % 7;
    var e := FindMissing(z);
    var n := if e <= j then j + 3 else j;
    LeapDrift(z, n, e);
    u := z + 4 * n;
    WeekdayDrifts(z, 2, 29, 4 * n);
    FivesReturn(a, wd, j, Drift(z, 4 * n));
  }

  lemma FivesReturn(a: int, wd: int, j: int, g: int)
    requires 0 <= a < 7 && 0 <= wd < 7 && j == (3 * (wd - a)) % 7 && (g == 5 * j || g == 5 * (j + 3) - 1)
    ensures (a + g) % 7 == wd
  {
    FivesWrap(a, wd, j, (3 * (wd - a)) / 7, g);
  }

  lemma FivesWrap(a: int, wd: int, j: int, q: int, g: int)
    requires 0 <= wd < 7 && 3 * (wd - a) == 7 * q + j && (g == 5 * j || g == 5 * j + 14)
    ensures (a + g) % 7 == wd
  {
    var c := 2 * (wd - a) - 5 * q + (if g == 5 * j then 0 else 2);
    assert a + g == 7 * c + wd;
    DropWeeks(c, wd);
  }

  // ---- how long an expression can stay silent ----

  /** The end of the `n`-th year after a minute's own. */
  function YearEnd(from: nat, n: nat): int { DaysBefore(Civil(from / 1440).year + n + 1) * 1440 }

  lemma SameDayMatches(f: seq<string>, a: nat, b: nat)
    requires |f| == 5 && Weekday(a) == Weekday(b) && Civil(a).month == Civil(b).month && Civil(a).day == Civil(b).day
    ensures DayMatches(f, a) == DayMatches(f, b)
  {
    hide FieldMatches, Civil, Weekday;
  }

  lemma SameMinuteMatches(expr: string, today: nat, day: nat, minute: nat)
    requires CronMatches(expr, today * 1440 + minute) && minute < 1440 && |Fields(expr)| == 5
    requires DayMatches(Fields(expr), day)
    ensures CronMatches(expr, day * 1440 + minute)
  {
    hide FieldMatches, DayMatches, Fields;
    MinuteParts(day, minute);
    MinuteParts(today, minute);
  }

  /** The number of years after which a date has been on every weekday: 40 for 29 February, else 12. */
  function YearsRound(c: Date): nat { if c.month == 2 && c.day == 29 then 40 else 12 }

  /** What fires at some time fires again before the end of the 12th year after any minute, or of the 40th if it is a
      29 February. */
  lemma FiresAgain(expr: string, today: nat, minute: nat, from: nat) returns (k: nat)
    requires CronMatches(expr, today * 1440 + minute) && minute < 1440
    ensures from <= k < YearEnd(from, YearsRound(Civil(today))) && CronMatches(expr, k)
  {
    hide *;
    WeekdayRange(today);
    DatesAreValid(today);
    MatchParts(expr, today, minute);
    var day := DayAgain(Civil(today), Weekday(today), from);
    SameDayMatches(Fields(expr), day, today);
    SameMinuteMatches(expr, today, day, minute);
    k := day * 1440 + minute;
  }

  lemma MatchParts(expr: string, today: nat, minute: nat)
    requires CronMatches(expr, today * 1440 + minute) && minute < 1440
    ensures |Fields(expr)| == 5 && DayMatches(Fields(expr), today)
  {
    hide FieldMatches, DayMatches, Fields;
    MinuteParts(today, minute);
  }

  lemma DayAgain(c: Date, wd: int, from: nat) returns (day: nat)
    requires Valid(c) && 0 <= wd < 7
    ensures Weekday(day) == wd && Civil(day).month == c.month && Civil(day).day == c.day
    ensures from < day * 1440 && (day + 1) * 1440 <= YearEnd(from, YearsRound(c))
  {
    hide Civil, DayOf, Weekday, DaysBefore, MonthStart, Leap, Valid;
    var y := Civil(from / 1440).year;
    DatesAreValid(from / 1440);
    var u := YearFor(y, c, wd);
    var d := Date(u, c.month, c.day);
    CivilReadsBack(d);
    day := DayOf(u, c.month, c.day);
    InYear(d);
    InYear(Civil(from / 1440));
    YearsGrow(y + 1, u);
    YearsGrow(u + 1, y + YearsRound(c) + 1);
  }

  lemma DatesAreValid(day: nat)
    ensures Valid(Civil(day)) && Civil(day).year >= 1
  {
  }

  /** A later year in which the date falls on the weekday. */
  lemma YearFor(y: int, c: Date, wd: int) returns (u: int)
    requires y >= 1 && Valid(c) && 0 <= wd < 7
    ensures y < u <= y + YearsRound(c)
    ensures Valid(Date(u, c.month, c.day)) && Weekday(DayOf(u, c.month, c.day)) == wd
  {
    hide DayOf, Weekday, Leap;
    if c.month == 2 && c.day == 29 {
      var z := LeapFrom(y + 1);
      NextLeapYear(y + 1);
      u := LeapReturns(z, wd);
      if z > y + 4 {
        NoneMissingSoon(z);
      }
    } else {
      u := CommonReturns(y + 1, c.month, c.day, wd);
      CommonDates(u, c);
    }
  }

  lemma CommonDates(u: int, c: Date)
    requires u >= 1 && Valid(c) && !(c.month == 2 && c.day == 29)
    ensures Valid(Date(u, c.month, c.day))
  {
  }

  /** After a missing leap day the next seven are there. */
  lemma NoneMissingSoon(z: int)
    requires BeforeGap(z - 8)
    ensures forall i :: 0 <= i < 7 ==> Leap(z + 4 * i)
  {
    GapYear(z);
    forall i | 0 <= i < 7 ensures Leap(z + 4 * i) {
      OneMissing(z - 4, 0, i + 1);
    }
  }

  lemma GapYear(z: int)
    requires BeforeGap(z - 8)
    ensures (z - 4) % 4 == 0 && !Leap(z - 4)
  {
  }
}
