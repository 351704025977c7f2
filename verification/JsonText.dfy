/** JSON values and the one text the backup digest gives each of them. */
module JsonText {
  import opened Ordering

  datatype Json =
    | Null
    | Bool(b: bool)
    | Num(token: string)
    | Str(s: string)
    | Arr(items: seq<Json>)
    | Obj(members: seq<Member>)

  datatype Member = Member(key: string, value: Json)

  // ---- strings ----

  function Hex(d: nat): char
    requires d < 16
  {
    "0123456789abcdef"[d]
  }

  /** One character inside a string, without HTML-safe escaping. */
  function Escape(c: char): string {
    if c == '"' then "\\\""
    else if c == '\\' then "\\\\"
    else if c == 8 as char then "\\b"
    else if c == 12 as char then "\\f"
    else if c == '\n' then "\\n"
    else if c == '\r' then "\\r"
    else if c == '\t' then "\\t"
    else if c < ' ' then ['\\', 'u', '0', '0', Hex(c as nat / 16), Hex(c as nat % 16)]
    else if c == 0x2028 as char then "\\u2028"
    else if c == 0x2029 as char then "\\u2029"
    else [c]
  }

  function Body(s: string): string {
    if |s| == 0 then "" else Escape(s[0]) + Body(s[1..])
  }

  function Quote(s: string): string { "\"" + Body(s) + "\"" }

  // ---- reading strings, section 7 of RFC 8259 ----

  function HexDigit(c: char): Option<nat> {
    if '0' <= c <= '9' then Some((c - '0') as nat)
    else if 'a' <= c <= 'f' then Some((c - 'a') as nat + 10)
    else if 'A' <= c <= 'F' then Some((c - 'A') as nat + 10)
    else None
  }

  /** The 16-bit unit of `\uXXXX` at the head of the text. */
  function Unit(t: string): (u: Option<nat>)
    ensures u.Some? ==> |t| >= 6 && u.value < 0x1_0000
  {
    if |t| < 6 || t[0] != '\\' || t[1] != 'u' then None
    else match (HexDigit(t[2]), HexDigit(t[3]), HexDigit(t[4]), HexDigit(t[5]))
      case (Some(a), Some(b), Some(c), Some(d)) =>
        assert a < 16 && b < 16 && c < 16 && d < 16;
        Some(a * 0x1000 + b * 0x100 + c * 0x10 + d)
      case _ => None
  }

  predicate High(u: nat) { 0xD800 <= u < 0xDC00 }

  predicate Low(u: nat) { 0xDC00 <= u < 0xE000 }

  /** One character of a string and what follows it: itself, an escape, or a pair of surrogates; no quote, no
      control character and no surrogate alone. */
  function ReadChar(t: string): (r: Option<(char, string)>)
    ensures r.Some? ==> |r.value.1| < |t|
  {
    if |t| == 0 || t[0] == '"' || t[0] < ' ' then None
    else if t[0] != '\\' then Some((t[0], t[1..]))
    else if |t| < 2 then None
    else match t[1]
      case '"' => Some(('"', t[2..]))
      case '\\' => Some(('\\', t[2..]))
      case '/' => Some(('/', t[2..]))
      case 'b' => Some((8 as char, t[2..]))
      case 'f' => Some((12 as char, t[2..]))
      case 'n' => Some(('\n', t[2..]))
      case 'r' => Some(('\r', t[2..]))
      case 't' => Some(('\t', t[2..]))
      case 'u' =>
        (match Unit(t)
         case None => None
         case Some(u) =>
           if Low(u) then None
           else if !High(u) then Some((u as char, t[6..]))
           else match Unit(t[6..])
             case None => None
             case Some(v) =>
               if !Low(v) then None
               else Some(((0x1_0000 + (u - 0xD800) * 0x400 + (v - 0xDC00)) as char, t[12..])))
      case _ => None
  }

  /** A string up to its closing quote, and what follows that. */
  function ReadBody(t: string): (r: Option<(string, string)>)
    ensures r.Some? ==> |r.value.1| < |t|
    decreases |t|
  {
    if |t| > 0 && t[0] == '"' then Some(("", t[1..]))
    else match ReadChar(t)
      case None => None
      case Some((c, rest)) =>
        match ReadBody(rest)
        case None => None
        case Some((s, after)) => Some(([c] + s, after))
  }

  /** A quoted string at the head of a text, and the rest of the text. */
  function ReadQuoted(t: string): (r: Option<(string, string)>)
    ensures r.Some? ==> |r.value.1| < |t|
  {
    if |t| > 0 && t[0] == '"' then ReadBody(t[1..]) else None
  }

  lemma HexReads(d: nat)
    requires d < 16
    ensures HexDigit(Hex(d)) == Some(d)
  {
  }

  lemma UnitReads(a: nat, b: nat, c: nat, d: nat, rest: string)
    requires a < 16 && b < 16 && c < 16 && d < 16
    ensures var t := ['\\', 'u', Hex(a), Hex(b), Hex(c), Hex(d)] + rest;
            && t[6..] == rest
            && var u := a * 0x1000 + b * 0x100 + c * 0x10 + d;
               Unit(t) == Some(u) && (!High(u) && !Low(u) ==> ReadChar(t) == Some((u as char, rest)))
  {
    hide Hex, HexDigit;
    HexReads(a);
    HexReads(b);
    HexReads(c);
    HexReads(d);
  }

  lemma ShortReads(c: char, rest: string)
    requires c in "\"\\/bfnrt"
    ensures ReadChar(['\\', c] + rest) ==
            Some((if c == 'b' then 8 as char else if c == 'f' then 12 as char else if c == 'n' then '\n'
                  else if c == 'r' then '\r' else if c == 't' then '\t' else c, rest))
  {
    hide Unit;
    assert (['\\', c] + rest)[2..] == rest;
  }

  /** What is written for a character is read as that character, whatever follows. */
  lemma EscapeReads(c: char, rest: string)
    ensures ReadChar(Escape(c) + rest) == Some((c, rest))
  {
    hide Unit, ReadChar;
    if |Escape(c)| == 1 {
      PlainReads(c, rest);
    } else if |Escape(c)| == 2 {
      var d := Escape(c)[1];
      assert Escape(c) == ['\\', d] && d in "\"\\/bfnrt";
      ShortReads(d, rest);
    } else if c < ' ' {
      assert c as nat == (c as nat / 16) * 16 + c as nat % 16;
      UnitReads(0, 0, c as nat / 16, c as nat % 16, rest);
    } else {
      UnitReads(2, 0, 2, if c == 0x2028 as char then 8 else 9, rest);
    }
  }

  lemma PlainReads(c: char, rest: string)
    requires c >= ' ' && c != '"' && c != '\\'
    ensures ReadChar([c] + rest) == Some((c, rest))
  {
    hide Unit;
    assert ([c] + rest)[1..] == rest;
  }

  /** How the characters are spelled: with a letter behind a backslash where JSON has one, as themselves where they may
      stand so, and else by number, in lower case. */
  lemma EscapeForms(c: char)
    ensures |Escape(c)| == 2 <==> c in "\"\\\n\r\t" || c == 8 as char || c == 12 as char
    ensures |Escape(c)| == 6 <==> (c < ' ' && |Escape(c)| != 2) || c == 0x2028 as char || c == 0x2029 as char
    ensures |Escape(c)| in {1, 2, 6} && (|Escape(c)| == 1 ==> Escape(c) == [c])
    ensures |Escape(c)| == 6 ==> forall i :: 2 <= i < 6 ==> !('A' <= Escape(c)[i] <= 'F')
  {
    if c < ' ' {
      LowerHex(c as nat / 16);
      LowerHex(c as nat % 16);
    }
  }

  lemma LowerHex(d: nat)
    requires d < 16
    ensures !('A' <= Hex(d) <= 'F')
  {
  }

  lemma EscapeIsNoQuote(c: char)
    ensures |Escape(c)| > 0 && Escape(c)[0] != '"'
  {
  }

  lemma {:induction false} BodyReads(s: string, rest: string)
    ensures ReadBody(Body(s) + "\"" + rest) == Some((s, rest))
  {
    hide Escape, ReadChar;
    var t := Body(s) + "\"" + rest;
    if |s| == 0 {
      assert t[1..] == rest;
    } else {
      var more := Body(s[1..]) + "\"" + rest;
      assert t == Escape(s[0]) + more;
      EscapeReads(s[0], more);
      EscapeIsNoQuote(s[0]);
      BodyReads(s[1..], rest);
      assert s == [s[0]] + s[1..];
    }
  }

  /** A quoted string is read back, whatever follows it. */
  lemma QuoteReads(s: string, rest: string)
    ensures ReadQuoted(Quote(s) + rest) == Some((s, rest))
  {
    hide Body, ReadBody;
    assert (Quote(s) + rest)[1..] == Body(s) + "\"" + rest;
    BodyReads(s, rest);
  }

  /** So no two strings are written alike, even with something behind them. */
  lemma QuoteIsUnambiguous(s: string, t: string, r: string, q: string)
    requires Quote(s) + r == Quote(t) + q
    ensures s == t && r == q
  {
    hide Quote, ReadQuoted;
    QuoteReads(s, r);
    QuoteReads(t, q);
  }

  // ---- values ----

  predicate NumberChar(c: char) { '0' <= c <= '9' || c in "+-.eE" }

  predicate Digit(c: char) { '0' <= c <= '9' }

  /** How many digits the text begins with. */
  function DigitRun(t: string): (n: nat)
    ensures n <= |t| && (forall i :: 0 <= i < n ==> Digit(t[i])) && (n < |t| ==> !Digit(t[n]))
  {
    if |t| > 0 && Digit(t[0]) then 1 + DigitRun(t[1..]) else 0
  }

  /** Nothing, or an exponent. */
  predicate Exponent(t: string) {
    |t| == 0 || ((t[0] == 'e' || t[0] == 'E') &&
                 var s := if |t| > 1 && (t[1] == '+' || t[1] == '-') then t[2..] else t[1..];
                 |s| > 0 && DigitRun(s) == |s|)
  }

  /** Nothing, or a fraction, an exponent, or both. */
  predicate Fraction(t: string) {
    if |t| > 0 && t[0] == '.' then
      var n := DigitRun(t[1..]);
      n > 0 && Exponent(t[1..][n..])
    else Exponent(t)
  }

  /** A number, section 6 of RFC 8259: no leading zeros, digits around the point and in the exponent. */
  predicate Number(t: string) {
    var s := if |t| > 0 && t[0] == '-' then t[1..] else t;
    var n := DigitRun(s);
    n > 0 && (s[0] == '0' ==> n == 1) && Fraction(s[n..])
  }

  /** A number token, seen as its characters and as a number. */
  predicate NumberText(t: string) {
    |t| > 0 && (t[0] == '-' || Digit(t[0])) && (forall c :: c in t ==> NumberChar(c)) && Number(t)
  }

  /** Every number has the characters of one. */
  lemma NumberShape(t: string)
    requires Number(t)
    ensures NumberText(t)
  {
    hide Fraction, DigitRun;
    var s := if |t| > 0 && t[0] == '-' then t[1..] else t;
    var n := DigitRun(s);
    FractionShape(s[n..]);
    forall i | 0 <= i < |s| ensures NumberChar(s[i]) {
      if i >= n {
        assert s[i] == s[n..][i - n];
      }
    }
    forall i | 0 <= i < |t| ensures NumberChar(t[i]) {
      if t[0] == '-' && i > 0 {
        assert t[i] == s[i - 1];
      }
    }
  }

  lemma FractionShape(t: string)
    requires Fraction(t)
    ensures forall i :: 0 <= i < |t| ==> NumberChar(t[i])
  {
    hide Exponent;
    if |t| > 0 && t[0] == '.' {
      var s := t[1..];
      var n := DigitRun(s);
      var e := s[n..];
      ExponentShape(e);
      forall i | 0 <= i < |t| ensures NumberChar(t[i]) {
        if i > n {
          assert t[i] == e[i - 1 - n];
        } else if i > 0 {
          assert t[i] == s[i - 1];
        }
      }
    } else {
      ExponentShape(t);
    }
  }

  lemma ExponentShape(t: string)
    requires Exponent(t)
    ensures forall i :: 0 <= i < |t| ==> NumberChar(t[i])
  {
    if |t| > 0 {
      var signed := |t| > 1 && (t[1] == '+' || t[1] == '-');
      var s := if signed then t[2..] else t[1..];
      forall i | 0 <= i < |t| ensures NumberChar(t[i]) {
        assert signed && i > 1 ==> t[i] == s[i - 2];
        assert !signed && i > 0 ==> t[i] == s[i - 1];
      }
    }
  }

  /** Every number is a number token. */
  predicate Wf(v: Json) {
    match v
    case Num(t) => NumberText(t)
    case Arr(items) => forall w :: w in items ==> Wf(w)
    case Obj(ms) => forall m :: m in ms ==> Wf(m.value)
    case _ => true
  }

  function Print(v: Json): string {
    match v
    case Null => "null"
    case Bool(b) => if b then "true" else "false"
    case Num(t) => t
    case Str(s) => Quote(s)
    case Arr(items) => "[" + (PrintItems(items) + "]")
    case Obj(ms) => "{" + (PrintMembers(ms) + "}")
  }

  function PrintItems(items: seq<Json>): string
    decreases items, 0
  {
    if |items| == 0 then "" else Print(items[0]) + MoreItems(items[1..])
  }

  function MoreItems(items: seq<Json>): string
    decreases items, 1
  {
    if |items| == 0 then "" else "," + PrintItems(items)
  }

  function PrintMember(m: Member): string { Quote(m.key) + (":" + Print(m.value)) }

  function PrintMembers(ms: seq<Member>): string
    decreases ms, 0
  {
    if |ms| == 0 then "" else PrintMember(ms[0]) + MoreMembers(ms[1..])
  }

  function MoreMembers(ms: seq<Member>): string
    decreases ms, 1
  {
    if |ms| == 0 then "" else "," + PrintMembers(ms)
  }

  /** Text that can follow a value. */
  predicate Ends(r: string) { |r| == 0 || r[0] in ",]}" }

  lemma Assoc(a: string, b: string, c: string)
    ensures (a + b) + c == a + (b + c)
  {
  }

  lemma Regroup(k: string, v: string, more: string, e: string)
    ensures ((k + (":" + v)) + more) + e == k + (":" + (v + (more + e)))
  {
    Assoc(k + (":" + v), more, e);
    Assoc(k, ":" + v, more + e);
    Assoc(":", v, more + e);
  }
}
