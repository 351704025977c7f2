/** A reader of JSON texts, by RFC 8259, character by character. It knows nothing of how values are printed. */
module JsonReader {
  import opened Ordering
  import opened JsonText

  predicate Blank(c: char) { c == ' ' || c == '\t' || c == '\n' || c == '\r' }

  /** The text without the white space at its head. */
  function Skip(t: string): (r: string)
    ensures |r| <= |t|
  {
    if |t| > 0 && Blank(t[0]) then Skip(t[1..]) else t
  }

  /** How many characters of a number the text begins with. */
  function NumberRun(t: string): (n: nat)
    ensures n <= |t|
  {
    if |t| > 0 && NumberChar(t[0]) then 1 + NumberRun(t[1..]) else 0
  }

  /** The text behind a word, if it begins with it. */
  function Behind(t: string, word: string): (r: Option<string>)
    ensures r.Some? ==> |t| == |word| + |r.value|
  {
    if |t| >= |word| && t[..|word|] == word then Some(t[|word|..]) else None
  }

  /** The value at the head of the text, section 3, and what follows it. */
  function Read(text: string): (r: Option<(Json, string)>)
    ensures r.Some? ==> |r.value.1| < |text|
    decreases |text|, 0
  {
    var t := Skip(text);
    if |t| == 0 then None
    else if t[0] == '"' then
      match ReadQuoted(t)
      case Some((s, rest)) => Some((Str(s), rest))
      case None => None
    else if t[0] == '[' then
      match ReadItems(t[1..])
      case Some((items, rest)) => Some((Arr(items), rest))
      case None => None
    else if t[0] == '{' then
      match ReadMembers(t[1..])
      case Some((ms, rest)) => Some((Obj(ms), rest))
      case None => None
    else if Behind(t, "null").Some? then Some((Null, Behind(t, "null").value))
    else if Behind(t, "true").Some? then Some((Bool(true), Behind(t, "true").value))
    else if Behind(t, "false").Some? then Some((Bool(false), Behind(t, "false").value))
    else
      var n := NumberRun(t);
      if n > 0 && Number(t[..n]) then Some((Num(t[..n]), t[n..])) else None
  }

  /** The elements of an array up to its bracket, section 5. */
  function ReadItems(text: string): (r: Option<(seq<Json>, string)>)
    ensures r.Some? ==> |r.value.1| < |text|
    decreases |text|, 2
  {
    var t := Skip(text);
    if |t| > 0 && t[0] == ']' then Some(([], t[1..])) else ReadMoreItems(text)
  }

  function ReadMoreItems(text: string): (r: Option<(seq<Json>, string)>)
    ensures r.Some? ==> |r.value.1| < |text|
    decreases |text|, 1
  {
    match Read(text)
    case None => None
    case Some((v, rest)) =>
      var t := Skip(rest);
      if |t| > 0 && t[0] == ']' then Some(([v], t[1..]))
      else if |t| > 0 && t[0] == ',' then
        match ReadMoreItems(t[1..])
        case None => None
        case Some((items, after)) => Some(([v] + items, after))
      else None
  }

  /** The members of an object up to its brace, section 4. */
  function ReadMembers(text: string): (r: Option<(seq<Member>, string)>)
    ensures r.Some? ==> |r.value.1| < |text|
    decreases |text|, 2
  {
    var t := Skip(text);
    if |t| > 0 && t[0] == '}' then Some(([], t[1..])) else ReadMoreMembers(text)
  }

  function ReadMoreMembers(text: string): (r: Option<(seq<Member>, string)>)
    ensures r.Some? ==> |r.value.1| < |text|
    decreases |text|, 1
  {
    match ReadMember(text)
    case None => None
    case Some((m, rest)) =>
      var t := Skip(rest);
      if |t| > 0 && t[0] == '}' then Some(([m], t[1..]))
      else if |t| > 0 && t[0] == ',' then
        match ReadMoreMembers(t[1..])
        case None => None
        case Some((ms, after)) => Some(([m] + ms, after))
      else None
  }

  /** A name, a colon and a value. */
  function ReadMember(text: string): (r: Option<(Member, string)>)
    ensures r.Some? ==> |r.value.1| < |text|
    decreases |text|, 0
  {
    match ReadQuoted(Skip(text))
    case None => None
    case Some((key, rest)) =>
      var t := Skip(rest);
      if |t| == 0 || t[0] != ':' then None
      else
        match Read(t[1..])
        case None => None
        case Some((v, after)) => Some((Member(key, v), after))
  }

  // ---- what is printed is read back ----

  lemma NoBlank(t: string)
    requires |t| == 0 || !Blank(t[0])
    ensures Skip(t) == t
  {
  }

  lemma {:induction false} RunOfNumber(t: string, r: string)
    requires (forall i :: 0 <= i < |t| ==> NumberChar(t[i])) && (|r| == 0 || !NumberChar(r[0]))
    ensures NumberRun(t + r) == |t|
  {
    if |t| == 0 {
      assert t + r == r;
    } else {
      assert (t + r)[1..] == t[1..] + r;
      RunOfNumber(t[1..], r);
    }
  }

  lemma NumberReads(t: string, r: string)
    requires NumberText(t) && Ends(r)
    ensures Read(t + r) == Some((Num(t), r))
  {
    hide Number;
    var x := t + r;
    NoBlank(x);
    RunOfNumber(t, r);
    assert x[..|t|] == t && x[|t|..] == r && x[0] == t[0];
    NoWord(x, "null");
    NoWord(x, "true");
    NoWord(x, "false");
  }

  lemma NoWord(x: string, word: string)
    requires |x| > 0 && |word| > 0
    ensures x[0] != word[0] ==> Behind(x, word) == None
  {
    if |x| >= |word| && x[..|word|] == word {
      assert x[..|word|][0] == x[0];
    }
  }

  lemma WordReads(word: string, r: string)
    ensures Behind(word + r, word) == Some(r)
  {
    assert (word + r)[..|word|] == word && (word + r)[|word|..] == r;
  }

  lemma ScalarReads(v: Json, r: string)
    requires Wf(v) && Ends(r) && !v.Arr? && !v.Obj?
    ensures Read(Print(v) + r) == Some((v, r))
  {
    hide Number, Quote, ReadQuoted;
    var x := Print(v) + r;
    match v
    case Null =>
      WordReads("null", r);
      NoBlank(x);
    case Bool(b) =>
      WordReads(if b then "true" else "false", r);
      NoBlank(x);
      NoWord(x, "null");
      NoWord(x, "true");
    case Num(t) => NumberReads(t, r);
    case Str(s) =>
      QuoteReads(s, r);
      QuoteStarts(s, r);
      NoBlank(x);
  }

  lemma QuoteStarts(s: string, r: string)
    ensures var x := Quote(s) + r; |x| > 0 && x[0] == '"'
  {
    hide Body;
  }

  /** The printed form of a value never begins with white space. */
  lemma PrintStarts(v: Json, r: string)
    requires Wf(v)
    ensures var x := Print(v) + r; |x| > 0 && !Blank(x[0]) && x[0] !in ",:]}"
  {
    hide PrintItems, PrintMembers, Number, Quote;
    if v.Str? {
      QuoteStarts(v.s, r);
    }
  }

  lemma OpenReads(c: char, inner: string, r: string)
    ensures var x := [c] + inner + r; |x| > 0 && x[0] == c && x[1..] == inner + r
  {
  }

  /** Every value that is printed is read back, whatever value text follows. */
  lemma {:induction false} PrintReads(v: Json, r: string)
    requires Wf(v) && Ends(r)
    ensures Read(Print(v) + r) == Some((v, r))
    decreases v
  {
    hide PrintItems, PrintMembers, ReadItems, ReadMembers, Number, Quote, ReadQuoted, Behind, Ends;
    match v
    case Arr(items) =>
      ItemsRead(items, r);
      var inner := PrintItems(items) + "]";
      assert Print(v) == "[" + inner;
      OpenReads('[', inner, r);
      NoBlank(Print(v) + r);
      assert inner + r == PrintItems(items) + ("]" + r);
    case Obj(ms) =>
      MembersRead(ms, r);
      var inner := PrintMembers(ms) + "}";
      assert Print(v) == "{" + inner;
      OpenReads('{', inner, r);
      NoBlank(Print(v) + r);
      assert inner + r == PrintMembers(ms) + ("}" + r);
    case _ => ScalarReads(v, r);
  }

  lemma Closed(c: char, r: string)
    requires c == ']' || c == '}'
    ensures var x := [c] + r; Ends(x) && Skip(x) == x && |x| > 0 && x[0] == c && x[1..] == r
  {
    NoBlank([c] + r);
  }

  lemma {:induction false} ItemsRead(items: seq<Json>, r: string)
    requires forall w :: w in items ==> Wf(w)
    ensures ReadItems(PrintItems(items) + ("]" + r)) == Some((items, r))
    decreases items, 1
  {
    hide Read, Print, Wf, ReadMoreItems;
    Closed(']', r);
    if |items| == 0 {
      assert PrintItems(items) + ("]" + r) == "]" + r;
    } else {
      MoreItemsRead(items, r);
      ItemsHead(items, "]" + r);
      assert items[0] in items;
      PrintStarts(items[0], MoreItems(items[1..]) + ("]" + r));
      NoBlank(PrintItems(items) + ("]" + r));
    }
  }

  lemma ItemsHead(items: seq<Json>, e: string)
    requires |items| > 0
    ensures PrintItems(items) + e == Print(items[0]) + (MoreItems(items[1..]) + e)
  {
    hide Print;
    Assoc(Print(items[0]), MoreItems(items[1..]), e);
  }

  lemma {:induction false} MoreItemsRead(items: seq<Json>, r: string)
    requires |items| > 0 && forall w :: w in items ==> Wf(w)
    ensures ReadMoreItems(PrintItems(items) + ("]" + r)) == Some((items, r))
    decreases items, 0
  {
    hide Read, Print, Wf, PrintItems;
    var (v, rest) := (items[0], items[1..]);
    var e := "]" + r;
    Closed(']', r);
    assert v in items;
    ItemsHead(items, e);
    var tail := MoreItems(rest) + e;
    if |rest| == 0 {
      assert MoreItems(rest) == "" && tail == e;
      PrintReads(v, e);
      assert items == [v];
    } else {
      var more := PrintItems(rest) + e;
      assert MoreItems(rest) == "," + PrintItems(rest);
      Assoc(",", PrintItems(rest), e);
      assert tail == "," + more && tail[1..] == more;
      NoBlank(tail);
      PrintReads(v, tail);
      MoreItemsRead(rest, r);
      assert items == [v] + rest;
    }
  }

  lemma {:induction false} MembersRead(ms: seq<Member>, r: string)
    requires forall m :: m in ms ==> Wf(m.value)
    ensures ReadMembers(PrintMembers(ms) + ("}" + r)) == Some((ms, r))
    decreases ms, 1
  {
    hide Read, Print, Wf, ReadMoreMembers, Quote;
    Closed('}', r);
    if |ms| == 0 {
      assert PrintMembers(ms) + ("}" + r) == "}" + r;
    } else {
      MoreMembersRead(ms, r);
      MembersHead(ms, "}" + r);
      QuoteStarts(ms[0].key, ":" + (Print(ms[0].value) + (MoreMembers(ms[1..]) + ("}" + r))));
      NoBlank(PrintMembers(ms) + ("}" + r));
    }
  }

  lemma MembersHead(ms: seq<Member>, e: string)
    requires |ms| > 0
    ensures PrintMembers(ms) + e == Quote(ms[0].key) + (":" + (Print(ms[0].value) + (MoreMembers(ms[1..]) + e)))
  {
    hide Print, Quote;
    Regroup(Quote(ms[0].key), Print(ms[0].value), MoreMembers(ms[1..]), e);
  }

  lemma {:induction false} MoreMembersRead(ms: seq<Member>, r: string)
    requires |ms| > 0 && forall m :: m in ms ==> Wf(m.value)
    ensures ReadMoreMembers(PrintMembers(ms) + ("}" + r)) == Some((ms, r))
    decreases ms, 0
  {
    hide Read, Print, Wf, PrintMembers, Quote, ReadMember;
    var (m, rest) := (ms[0], ms[1..]);
    var e := "}" + r;
    Closed('}', r);
    assert m in ms;
    MembersHead(ms, e);
    var tail := MoreMembers(rest) + e;
    if |rest| == 0 {
      assert MoreMembers(rest) == "" && tail == e;
      PrintReads(m.value, e);
      MemberReads(m, e);
      assert ms == [m];
    } else {
      var more := PrintMembers(rest) + e;
      assert MoreMembers(rest) == "," + PrintMembers(rest);
      Assoc(",", PrintMembers(rest), e);
      assert tail == "," + more && tail[1..] == more;
      NoBlank(tail);
      PrintReads(m.value, tail);
      MemberReads(m, tail);
      MoreMembersRead(rest, r);
      assert ms == [m] + rest;
    }
  }

  lemma MemberReads(m: Member, tail: string)
    requires Read(Print(m.value) + tail) == Some((m.value, tail))
    ensures ReadMember(Quote(m.key) + (":" + (Print(m.value) + tail))) == Some((m, tail))
  {
    hide Read, Print, Quote, ReadQuoted;
    var after := ":" + (Print(m.value) + tail);
    QuoteReads(m.key, after);
    QuoteStarts(m.key, after);
    NoBlank(Quote(m.key) + after);
    NoBlank(after);
    assert after[1..] == Print(m.value) + tail;
  }

  /** So printing is unambiguous, also with more text behind: the value and the rest can be told apart. */
  lemma PrintIsUnambiguous(v: Json, w: Json, r: string, q: string)
    requires Wf(v) && Wf(w) && Ends(r) && Ends(q) && Print(v) + r == Print(w) + q
    ensures v == w && r == q
  {
    hide Read, Print, Wf, Ends;
    PrintReads(v, r);
    PrintReads(w, q);
  }
}
