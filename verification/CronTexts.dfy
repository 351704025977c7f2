/** Cron texts written out: what the fields of an expression say, for the forms users write. */
module CronTexts {
  import opened Ordering
  import opened CivilDate
  import opened CronFields

  // ---- five words ----

  predicate Word(s: string) { |s| > 0 && forall i :: 0 <= i < |s| ==> !Space(s[i]) }

  /** The words with one blank between them. */
  function Text(words: seq<string>): string {
    if |words| == 0 then "" else if |words| == 1 then words[0] else words[0] + " " + Text(words[1..])
  }

  lemma {:induction false} HeadOfWord(w: string, rest: string)
    requires forall i :: 0 <= i < |w| ==> !Space(w[i])
    requires rest == "" || Space(rest[0])
    ensures HeadLength(w + rest, false) == |w| && (|w| > 0 ==> HeadLength(w + rest, true) == 0)
  {
    hide Space;
    if |w| > 0 {
      HeadOfWord(w[1..], rest);
      assert (w + rest)[0] == w[0] && (w + rest)[1..] == w[1..] + rest;
    } else {
      assert w + rest == rest;
    }
  }

  lemma FirstWord(w: string, rest: string)
    requires Word(w) && (rest == "" || Space(rest[0]))
    ensures Fields(w + rest) == [w] + Fields(rest)
  {
    hide Space;
    HeadOfWord(w, rest);
    var s := w + rest;
    assert s[0..] == s && s[..|w|] == w && s[|w|..] == rest;
  }

  lemma BlankFirst(s: string)
    ensures Fields(" " + s) == Fields(s)
  {
    hide HeadLength;
    var t := " " + s;
    assert t[1..] == s && t[0] == ' ';
    assert HeadLength(t, true) == 1 + HeadLength(s, true) by {
      BlankCounts(s);
    }
    assert t[HeadLength(t, true)..] == s[HeadLength(s, true)..];
  }

  lemma BlankCounts(s: string)
    ensures HeadLength(" " + s, true) == 1 + HeadLength(s, true)
  {
    assert (" " + s)[1..] == s;
  }

  /** A text of words reads as these words. */
  lemma {:induction false} TextReads(words: seq<string>)
    requires forall w :: w in words ==> Word(w)
    ensures Fields(Text(words)) == words
  {
    hide Fields, Word, HeadLength, Space;
    if |words| == 0 {
      NoWords();
    } else {
      var (w, rest) := (words[0], words[1..]);
      assert words == [w] + rest;
      TextReads(rest);
      if |words| == 1 {
        FirstWord(w, "");
        NoWords();
        assert w + "" == w;
      } else {
        BlankIsSpace();
        FirstWord(w, " " + Text(rest));
        BlankFirst(Text(rest));
        assert w + (" " + Text(rest)) == w + " " + Text(rest);
      }
    }
  }

  lemma NoWords()
    ensures Fields("") == []
  {
  }

  lemma BlankIsSpace()
    ensures Space(' ')
  {
  }

  // ---- a number, a star, a stepped star ----

  /** A field without a comma has one element. */
  lemma OneElement(field: string, v: int, min: int, max: int)
    requires forall i :: 0 <= i < |field| ==> field[i] != ','
    ensures FieldMatches(field, v, min, max) <==> PartMatches(field, v, min, max)
    ensures FieldValid(field, min, max) <==> ParsePart(field, min, max).Some?
  {
    hide PartMatches, ParsePart;
    assert Split(field, ',') == [field];
  }

  lemma DigitsAreWord(n: nat)
    ensures Word(Digits(n)) && AllDigits(Digits(n)) && !Starred(Digits(n))
    ensures forall i :: 0 <= i < |Digits(n)| ==> '0' <= Digits(n)[i] <= '9'
  {
    hide Digits, DigitsValue;
    DigitsRead(n);
  }

  /** A plain number matches itself. */
  lemma NumberMatches(n: nat, v: int, min: int, max: int)
    requires n <= INT_MAX
    ensures FieldMatches(Digits(n), v, min, max) <==> v == n && min <= n <= max
    ensures FieldValid(Digits(n), min, max) <==> min <= n <= max
  {
    hide Digits, Atoi, FieldMatches, FieldValid;
    DigitsAreWord(n);
    AtoiReads(n);
    OneElement(Digits(n), v, min, max);
    NumberReads(Digits(n), n, min, max);
  }

  lemma NumberReads(s: string, n: int, min: int, max: int)
    requires AllDigits(s) && Atoi(s) == Some(n)
    ensures ParsePart(s, min, max) == if min <= n <= max then Some(Span(n, n, 1)) else None
  {
    hide Atoi;
    assert '0' <= s[0] <= '9';
  }

  /** A star matches everything, a star with a step every so many from the least on. */
  lemma StarMatches(v: int, min: int, max: int)
    requires min <= max
    ensures Word("*") && Starred("*") && FieldValid("*", min, max)
    ensures FieldMatches("*", v, min, max) <==> min <= v <= max
  {
    OneElement("*", v, min, max);
  }

  lemma SteppedStarMatches(n: nat, v: int, min: int, max: int)
    requires 1 <= n <= INT_MAX && min <= max
    ensures var f := "*/" + Digits(n);
            && Word(f) && Starred(f) && FieldValid(f, min, max)
            && (FieldMatches(f, v, min, max) <==> min <= v <= max && (v - min) % n == 0)
  {
    hide Digits, Atoi, FieldMatches, FieldValid, ParsePart;
    DigitsAreWord(n);
    AtoiReads(n);
    var f := "*" + "/" + Digits(n);
    assert f == "*/" + Digits(n);
    forall i | 0 <= i < |f| ensures f[i] != ',' && !Space(f[i]) {
      assert i >= 2 ==> f[i] == Digits(n)[i - 2];
    }
    OneElement(f, v, min, max);
    StepReads("*", Digits(n), min, max, n);
  }

  // ---- ranges, and a start with a step ----

  lemma NoComma(field: string)
    requires forall i :: 0 <= i < |field| ==> '0' <= field[i] <= '9' || field[i] in "-/*"
    ensures forall i :: 0 <= i < |field| ==> field[i] != ',' && !Space(field[i])
  {
  }

  /** A range a-b matches what lies in it. */
  lemma RangeMatches(a: nat, b: nat, v: int, min: int, max: int)
    requires a <= INT_MAX && b <= INT_MAX
    ensures var f := Digits(a) + "-" + Digits(b);
            && (FieldMatches(f, v, min, max) <==> min <= a <= v <= b <= max)
            && (FieldValid(f, min, max) <==> min <= a <= b <= max)
  {
    hide Digits, Atoi, FieldMatches, FieldValid, ParseRange;
    DigitsAreWord(a);
    DigitsAreWord(b);
    AtoiReads(a);
    AtoiReads(b);
    var (x, y) := (Digits(a), Digits(b));
    var f := x + "-" + y;
    NoComma(f);
    OneElement(f, v, min, max);
    RangeReads(x, y, min, max, 1, a, b);
    NoStep(f, min, max);
  }

  lemma NoStep(part: string, min: int, max: int)
    requires forall i :: 0 <= i < |part| ==> part[i] != '/'
    ensures ParsePart(part, min, max) == ParseRange(part, min, max, 1)
  {
    hide ParseRange;
  }

  /** a-b/n matches every n-th value of the range from its start on. */
  lemma SteppedRangeMatches(a: nat, b: nat, n: nat, v: int, min: int, max: int)
    requires a <= INT_MAX && b <= INT_MAX && 1 <= n <= INT_MAX
    ensures var f := Digits(a) + "-" + Digits(b) + "/" + Digits(n);
            && (FieldMatches(f, v, min, max) <==> min <= a <= v <= b <= max && (v - a) % n == 0)
            && (FieldValid(f, min, max) <==> min <= a <= b <= max)
  {
    hide Digits, FieldMatches, FieldValid, ParsePart;
    DigitsAreWord(a);
    DigitsAreWord(b);
    DigitsAreWord(n);
    var f := Digits(a) + "-" + Digits(b) + "/" + Digits(n);
    NoComma(f);
    OneElement(f, v, min, max);
    SteppedRangeReads(a, b, n, min, max);
  }

  /** a/n matches every n-th value from a to the end of the field's range; a/1 is just a. */
  lemma SteppedStartMatches(a: nat, n: nat, v: int, min: int, max: int)
    requires a <= INT_MAX && 1 <= n <= INT_MAX
    ensures var f := Digits(a) + "/" + Digits(n);
            && (FieldMatches(f, v, min, max) <==>
                  min <= a <= max && (if n == 1 then v == a else a <= v <= max && (v - a) % n == 0))
            && (FieldValid(f, min, max) <==> min <= a <= max)
  {
    hide Digits, Atoi, FieldMatches, FieldValid, ParsePart, ParseRange;
    DigitsAreWord(a);
    DigitsAreWord(n);
    AtoiReads(a);
    AtoiReads(n);
    var f := Digits(a) + "/" + Digits(n);
    NoComma(f);
    OneElement(f, v, min, max);
    StepReads(Digits(a), Digits(n), min, max, n);
    StartReads(Digits(a), a, n, min, max);
  }

  lemma StartReads(s: string, a: int, n: int, min: int, max: int)
    requires AllDigits(s) && Atoi(s) == Some(a) && n >= 1
    ensures ParseRange(s, min, max, n)
         == if min <= a <= max then Some(Span(a, if n > 1 then max else a, n)) else None
  {
    hide Atoi;
    assert '0' <= s[0] <= '9';
  }

  // ---- comma lists ----

  lemma SplitAtComma(a: string, b: string)
    requires forall i :: 0 <= i < |a| ==> a[i] != ','
    ensures Split(a + "," + b, ',') == [a] + Split(b, ',')
  {
    IndexInTail(a, ',', b);
    var s := a + "," + b;
    assert s == a + [','] + b;
    assert s[..|a|] == a && s[|a| + 1..] == b;
  }

  /** A list matches what its first element or the rest of it matches, and is accepted if both are. */
  lemma CommaMatches(a: string, b: string, v: int, min: int, max: int)
    requires forall i :: 0 <= i < |a| ==> a[i] != ','
    ensures FieldMatches(a + "," + b, v, min, max) <==> FieldMatches(a, v, min, max) || FieldMatches(b, v, min, max)
    ensures FieldValid(a + "," + b, min, max) <==> FieldValid(a, min, max) && FieldValid(b, min, max)
  {
    hide PartMatches, ParsePart;
    OneElement(a, v, min, max);
    SplitAtComma(a, b);
    var (all, rest) := (Split(a + "," + b, ','), Split(b, ','));
    assert forall x :: x in all <==> x == a || x in rest;
  }

  /** The numbers with commas between them. */
  function NumberList(ns: seq<nat>): string
    requires |ns| > 0
  {
    if |ns| == 1 then Digits(ns[0]) else Digits(ns[0]) + "," + NumberList(ns[1..])
  }

  /** A printed list of numbers matches exactly its members, and is accepted if all are within bounds. */
  lemma {:induction false} NumberListMatches(ns: seq<nat>, v: int, min: int, max: int)
    requires |ns| > 0 && forall i :: 0 <= i < |ns| ==> ns[i] <= INT_MAX
    ensures FieldMatches(NumberList(ns), v, min, max) <==> min <= v <= max && exists i :: 0 <= i < |ns| && ns[i] == v
    ensures FieldValid(NumberList(ns), min, max) <==> forall i :: 0 <= i < |ns| ==> min <= ns[i] <= max
  {
    hide Digits, FieldMatches, FieldValid;
    NumberMatches(ns[0], v, min, max);
    if |ns| > 1 {
      var rest := ns[1..];
      NumberListMatches(rest, v, min, max);
      DigitsAreWord(ns[0]);
      CommaMatches(Digits(ns[0]), NumberList(rest), v, min, max);
      forall i | 0 < i < |ns| ensures ns[i] == rest[i - 1] {
      }
      if i :| 0 <= i < |rest| && rest[i] == v {
        assert ns[i + 1] == v;
      }
      if forall i :: 0 <= i < |ns| ==> min <= ns[i] <= max {
        forall i | 0 <= i < |rest| ensures min <= rest[i] <= max {
          assert rest[i] == ns[i + 1];
        }
      }
    }
  }

  // ---- whole expressions ----

  /** An expression of five words fires at a minute of a day if the minute, the hour and the day fields do. */
  lemma TextFires(f: seq<string>, day: nat, hour: nat, minute: nat)
    requires |f| == 5 && (forall w :: w in f ==> Word(w)) && hour < 24 && minute < 60
    ensures CronMatches(Text(f), day * 1440 + hour * 60 + minute) <==>
            FieldMatches(f[0], minute, 0, 59) && FieldMatches(f[1], hour, 0, 23) && DayMatches(f, day)
  {
    hide FieldMatches, DayMatches, Fields, Text, Word;
    TextReads(f);
    ClockParts(day, hour, minute);
  }

  lemma ClockParts(day: nat, hour: nat, minute: nat)
    requires hour < 24 && minute < 60
    ensures var m := day * 1440 + hour * 60 + minute;
            m / 1440 == day && m % 60 == minute && m / 60 % 24 == hour
  {
    var m := day * 1440 + hour * 60 + minute;
    assert m / 60 == day * 24 + hour;
  }

  /** `minute hour * * *` fires once a day. */
  lemma DailyFires(at: nat, past: nat, day: nat, hour: nat, minute: nat)
    requires at < 24 && past < 60 && hour < 24 && minute < 60
    ensures CronMatches(Text([Digits(past), Digits(at), "*", "*", "*"]), day * 1440 + hour * 60 + minute) <==>
            hour == at && minute == past
  {
    hide Digits, FieldMatches, Text, Civil, Weekday, CronMatches;
    var f := [Digits(past), Digits(at), "*", "*", "*"];
    DigitsAreWord(past);
    DigitsAreWord(at);
    NumberMatches(past, minute, 0, 59);
    NumberMatches(at, hour, 0, 23);
    var c := Civil(day);
    StarMatches(c.day, 1, 31);
    StarMatches(c.month, 1, 12);
    StarMatches(Weekday(day), 0, 7);
    DateBounds(day);
    TextFires(f, day, hour, minute);
  }

  lemma DateBounds(day: nat)
    ensures 1 <= Civil(day).month <= 12 && 1 <= Civil(day).day <= 31 && 0 <= Weekday(day) < 7
  {
  }

  /** `minute hour * * w` fires on that weekday; 0 and 7 are both Sunday. */
  lemma WeeklyFires(at: nat, past: nat, w: nat, day: nat, hour: nat, minute: nat)
    requires at < 24 && past < 60 && w <= 7 && hour < 24 && minute < 60
    ensures CronMatches(Text([Digits(past), Digits(at), "*", "*", Digits(w)]), day * 1440 + hour * 60 + minute) <==>
            hour == at && minute == past && Weekday(day) == w % 7
  {
    hide Digits, FieldMatches, Text, Civil, Weekday, CronMatches;
    var f := [Digits(past), Digits(at), "*", "*", Digits(w)];
    DigitsAreWord(past);
    DigitsAreWord(at);
    DigitsAreWord(w);
    NumberMatches(past, minute, 0, 59);
    NumberMatches(at, hour, 0, 23);
    var c := Civil(day);
    StarMatches(c.day, 1, 31);
    StarMatches(c.month, 1, 12);
    NumberMatches(w, Weekday(day), 0, 7);
    NumberMatches(w, 7, 0, 7);
    DateBounds(day);
    TextFires(f, day, hour, minute);
  }

  /** `minute hour d m *` fires on that date. */
  lemma YearlyFires(at: nat, past: nat, d: nat, mo: nat, day: nat, hour: nat, minute: nat)
    requires at < 24 && past < 60 && 1 <= d <= 31 && 1 <= mo <= 12 && hour < 24 && minute < 60
    ensures CronMatches(Text([Digits(past), Digits(at), Digits(d), Digits(mo), "*"]), day * 1440 + hour * 60 + minute) <==>
            hour == at && minute == past && Civil(day).day == d && Civil(day).month == mo
  {
    hide Digits, FieldMatches, Text, Civil, Weekday, CronMatches;
    var f := [Digits(past), Digits(at), Digits(d), Digits(mo), "*"];
    DigitsAreWord(past);
    DigitsAreWord(at);
    DigitsAreWord(d);
    DigitsAreWord(mo);
    NumberMatches(past, minute, 0, 59);
    NumberMatches(at, hour, 0, 23);
    var c := Civil(day);
    NumberMatches(d, c.day, 1, 31);
    NumberMatches(mo, c.month, 1, 12);
    StarMatches(Weekday(day), 0, 7);
    DateBounds(day);
    TextFires(f, day, hour, minute);
  }

  /** `minute hour d * w` fires on that day of the month and on that weekday, on either. */
  lemma EitherDayFires(at: nat, past: nat, d: nat, w: nat, day: nat, hour: nat, minute: nat)
    requires at < 24 && past < 60 && 1 <= d <= 31 && w <= 7 && hour < 24 && minute < 60
    ensures CronMatches(Text([Digits(past), Digits(at), Digits(d), "*", Digits(w)]), day * 1440 + hour * 60 + minute) <==>
            hour == at && minute == past && (Civil(day).day == d || Weekday(day) == w % 7)
  {
    hide Digits, FieldMatches, Text, Civil, Weekday, CronMatches;
    var f := [Digits(past), Digits(at), Digits(d), "*", Digits(w)];
    DigitsAreWord(past);
    DigitsAreWord(at);
    DigitsAreWord(d);
    DigitsAreWord(w);
    NumberMatches(past, minute, 0, 59);
    NumberMatches(at, hour, 0, 23);
    var c := Civil(day);
    NumberMatches(d, c.day, 1, 31);
    StarMatches(c.month, 1, 12);
    NumberMatches(w, Weekday(day), 0, 7);
    NumberMatches(w, 7, 0, 7);
    DateBounds(day);
    TextFires(f, day, hour, minute);
  }
}
