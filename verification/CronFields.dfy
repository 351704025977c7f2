/** Cron expressions, from their text: five fields, each a comma list of numbers, ranges and steps. */
module CronFields {
  import opened Ordering
  import opened CivilDate

  // ---- text ----

  /** The length of the longest head of the text without white space, or made of it. */
  function HeadLength(s: string, space: bool): (n: nat)
    ensures n <= |s|
  {
    if |s| > 0 && Space(s[0]) == space then 1 + HeadLength(s[1..], space) else 0
  }

  /** The words of a text, split around white space. */
  function Fields(s: string): seq<string>
    decreases |s|
  {
    var t := s[HeadLength(s, true)..];
    var n := HeadLength(t, false);
    if n == 0 then [] else [t[..n]] + Fields(t[n..])
  }

  /** Where the character first stands, or the length of the text. */
  function IndexOf(s: string, c: char): (n: nat)
    ensures n <= |s| && (n < |s| ==> s[n] == c) && forall i :: 0 <= i < n ==> s[i] != c
  {
    if |s| == 0 || s[0] == c then 0 else 1 + IndexOf(s[1..], c)
  }

  function Split(s: string, c: char): (parts: seq<string>)
    ensures |parts| > 0
    decreases |s|
  {
    var n := IndexOf(s, c);
    if n == |s| then [s] else [s[..n]] + Split(s[n + 1..], c)
  }

  function DigitsValue(s: string): nat {
    if |s| == 0 then 0
    else DigitsValue(s[..|s| - 1]) * 10 + (if '0' <= s[|s| - 1] <= '9' then (s[|s| - 1] - '0') as nat else 0)
  }

  predicate AllDigits(s: string) { |s| > 0 && forall i :: 0 <= i < |s| ==> '0' <= s[i] <= '9' }

  const INT_MAX := 0x7FFF_FFFF_FFFF_FFFF

  /** A decimal number with an optional sign, as strconv.Atoi reads it into 64 bits. */
  function Atoi(s: string): Option<int> {
    var signed := |s| > 0 && (s[0] == '+' || s[0] == '-');
    var d := if signed then s[1..] else s;
    if !AllDigits(d) then None
    else
      var v: int := if signed && s[0] == '-' then 0 - DigitsValue(d) else DigitsValue(d);
      if -INT_MAX - 1 <= v <= INT_MAX then Some(v) else None
  }

  // ---- fields ----

  datatype Span = Span(lo: int, hi: int, step: int)

  function ParseRange(part: string, min: int, max: int, step: int): (r: Option<Span>)
    ensures r.Some? ==> min <= r.value.lo <= r.value.hi <= max && r.value.step == step
  {
    var dash := IndexOf(part, '-');
    var bounds :=
      if part == "*" then Some((min, max))
      else if dash < |part| then
        match (Atoi(part[..dash]), Atoi(part[dash + 1..]))
        case (Some(a), Some(b)) => Some((a, b))
        case _ => None
      else
        match Atoi(part)
        case Some(a) => Some((a, if step > 1 then max else a))
        case None => None;
    if bounds.None? || bounds.value.0 < min || bounds.value.1 > max || bounds.value.0 > bounds.value.1 then None
    else Some(Span(bounds.value.0, bounds.value.1, step))
  }

  /** One element of a comma list: its range and step, if it is well formed and within bounds. */
  function ParsePart(part: string, min: int, max: int): (r: Option<Span>)
    ensures r.Some? ==> min <= r.value.lo <= r.value.hi <= max && r.value.step >= 1
  {
    var slash := IndexOf(part, '/');
    if slash == |part| then ParseRange(part, min, max, 1)
    else
      match Atoi(part[slash + 1..])
      case None => None
      case Some(n) => if n <= 0 then None else ParseRange(part[..slash], min, max, n)
  }

  predicate SpanHas(s: Span, value: int)
    requires s.step >= 1
  {
    s.lo <= value <= s.hi && (value - s.lo) % s.step == 0
  }

  predicate PartMatches(part: string, value: int, min: int, max: int) {
    var r := ParsePart(part, min, max);
    r.Some? && SpanHas(r.value, value)
  }

  predicate FieldMatches(field: string, value: int, min: int, max: int) {
    exists part :: part in Split(field, ',') && PartMatches(part, value, min, max)
  }

  predicate FieldValid(field: string, min: int, max: int) {
    forall part :: part in Split(field, ',') ==> ParsePart(part, min, max).Some?
  }

  predicate CronValid(expr: string) {
    var f := Fields(expr);
    && |f| == 5 && FieldValid(f[0], 0, 59) && FieldValid(f[1], 0, 23) && FieldValid(f[2], 1, 31)
    && FieldValid(f[3], 1, 12) && FieldValid(f[4], 0, 7)
  }

  /** A field that was accepted can fire: every element matches the start of its range. */
  lemma ValidFieldFires(field: string, min: int, max: int)
    requires FieldValid(field, min, max)
    ensures exists v :: min <= v <= max && FieldMatches(field, v, min, max)
  {
    hide ParsePart;
    var part := Split(field, ',')[0];
    assert part in Split(field, ',');
    var s := ParsePart(part, min, max).value;
    assert PartMatches(part, s.lo, min, max);
    assert FieldMatches(field, s.lo, min, max);
  }

  predicate Starred(field: string) { |field| > 0 && field[0] == '*' }

  /** The month, and the day of the month or of the week, whichever of the two is restricted; a day that
      satisfies either one if both are. */
  predicate DayMatches(f: seq<string>, day: nat)
    requires |f| == 5
  {
    var c := Civil(day);
    var wd := Weekday(day);
    var dom := FieldMatches(f[2], c.day, 1, 31);
    var dow := FieldMatches(f[4], wd, 0, 7) || (wd == 0 && FieldMatches(f[4], 7, 0, 7));
    FieldMatches(f[3], c.month, 1, 12) && (if !Starred(f[2]) && !Starred(f[4]) then dom || dow else dom && dow)
  }

  /** Whether the expression fires at a minute, counted in the zone's own wall clock. */
  predicate CronMatches(expr: string, minute: nat) {
    var f := Fields(expr);
    |f| == 5 && FieldMatches(f[0], minute % 60, 0, 59) && FieldMatches(f[1], minute / 60 % 24, 0, 23)
    && DayMatches(f, minute / 1440)
  }

  // ---- reading back ----

  function Digits(n: nat): string {
    (if n < 10 then "" else Digits(n / 10)) + [('0' as int + n % 10) as char]
  }

  lemma OneMoreDigit(s: string, d: nat)
    requires d < 10 && (s == "" || AllDigits(s))
    ensures var t := s + [('0' as int + d) as char]; AllDigits(t) && DigitsValue(t) == DigitsValue(s) * 10 + d
  {
    var c := ('0' as int + d) as char;
    var t := s + [c];
    assert t[..|t| - 1] == s && t[|t| - 1] == c && '0' <= c <= '9' && (c - '0') as int == d;
  }

  lemma {:induction false} DigitsRead(n: nat)
    ensures AllDigits(Digits(n)) && DigitsValue(Digits(n)) == n
  {
    hide DigitsValue, AllDigits;
    if n >= 10 {
      DigitsRead(n / 10);
      OneMoreDigit(Digits(n / 10), n % 10);
    } else {
      OneMoreDigit("", n);
      NoDigits();
    }
  }

  lemma NoDigits()
    ensures DigitsValue("") == 0
  {
  }

  lemma AtoiReads(n: nat)
    requires n <= INT_MAX
    ensures Atoi(Digits(n)) == Some(n)
  {
    hide Digits, DigitsValue;
    DigitsRead(n);
    AtoiOfDigits(Digits(n));
  }

  lemma AtoiOfDigits(s: string)
    requires AllDigits(s) && DigitsValue(s) <= INT_MAX
    ensures Atoi(s) == Some(DigitsValue(s))
  {
    hide DigitsValue;
    assert '0' <= s[0] <= '9';
  }

  lemma {:induction false} IndexInTail(a: string, c: char, b: string)
    requires forall i :: 0 <= i < |a| ==> a[i] != c
    ensures IndexOf(a + [c] + b, c) == |a|
  {
    var s := a + [c] + b;
    var n := IndexOf(s, c);
    assert s[|a|] == c;
    assert forall i :: 0 <= i < |a| ==> s[i] == a[i];
  }

  /** The documented form a-b/n is read as the range and the step it shows. */
  lemma SteppedRangeReads(a: nat, b: nat, n: nat, min: int, max: int)
    requires a <= INT_MAX && b <= INT_MAX && 1 <= n <= INT_MAX
    ensures ParsePart(Digits(a) + "-" + Digits(b) + "/" + Digits(n), min, max)
            == if min <= a <= b <= max then Some(Span(a, b, n)) else None
  {
    hide Digits, Atoi, DigitsValue, ParsePart, ParseRange;
    DigitsRead(a);
    DigitsRead(b);
    DigitsRead(n);
    var (x, y, z) := (Digits(a), Digits(b), Digits(n));
    AtoiReads(a);
    AtoiReads(b);
    AtoiReads(n);
    RangeReads(x, y, min, max, n, a, b);
    StepReads(x + "-" + y, z, min, max, n);
  }

  lemma RangeReads(x: string, y: string, min: int, max: int, step: int, a: int, b: int)
    requires AllDigits(x) && AllDigits(y) && Atoi(x) == Some(a) && Atoi(y) == Some(b)
    ensures ParseRange(x + "-" + y, min, max, step) == if min <= a <= b <= max then Some(Span(a, b, step)) else None
  {
    hide Atoi;
    var s := x + "-" + y;
    IndexInTail(x, '-', y);
    assert s[..|x|] == x && s[|x| + 1..] == y;
    assert s[0] == x[0];
  }

  lemma StepReads(r: string, z: string, min: int, max: int, n: int)
    requires AllDigits(z) && Atoi(z) == Some(n) && n >= 1 && forall i :: 0 <= i < |r| ==> r[i] != '/'
    ensures ParsePart(r + "/" + z, min, max) == ParseRange(r, min, max, n)
  {
    hide Atoi, ParseRange;
    var s := r + "/" + z;
    IndexInTail(r, '/', z);
    assert s[..|r|] == r && s[|r| + 1..] == z;
  }
}
