/** The legacy canonical form: a byte-level pass over compact JSON that turns the five HTML-safe
    escapes back into the characters they stand for. */
module LegacyCanon {
  import opened Ordering

  newtype byte = b: int | 0 <= b < 256

  const QUOTE: byte := 0x22
  const BACKSLASH: byte := 0x5C
  const LETTER_U: byte := 0x75
  const LT: byte := 0x3C
  const GT: byte := 0x3E
  const AMP: byte := 0x26
  const LINE_SEPARATOR: seq<byte> := [0xE2, 0x80, 0xA8]
  const PARAGRAPH_SEPARATOR: seq<byte> := [0xE2, 0x80, 0xA9]

  function Lower(b: byte): byte { if 0x41 <= b <= 0x5A then b + 0x20 else b }

  /** The literal text for four digits after a backslash and a u, if it is one of the five. */
  function Literal(h: seq<byte>): Option<seq<byte>>
    requires |h| == 4
  {
    var (a, b, c, d) := (Lower(h[0]), Lower(h[1]), Lower(h[2]), Lower(h[3]));
    if a == 0x30 && b == 0x30 && c == 0x33 && d == 0x63 then Some([LT])
    else if a == 0x30 && b == 0x30 && c == 0x33 && d == 0x65 then Some([GT])
    else if a == 0x30 && b == 0x30 && c == 0x32 && d == 0x36 then Some([AMP])
    else if a == 0x32 && b == 0x30 && c == 0x32 && d == 0x38 then Some(LINE_SEPARATOR)
    else if a == 0x32 && b == 0x30 && c == 0x32 && d == 0x39 then Some(PARAGRAPH_SEPARATOR)
    else None
  }

  /** The text starts with one of the five escapes. */
  predicate Safe(s: seq<byte>) {
    |s| > 5 && s[0] == BACKSLASH && s[1] == LETTER_U && Literal(s[2..6]).Some?
  }

  function Strip(s: seq<byte>, inStr: bool): seq<byte> {
    if |s| == 0 then []
    else if !inStr then [s[0]] + Strip(s[1..], s[0] == QUOTE)
    else if s[0] == QUOTE then [QUOTE] + Strip(s[1..], false)
    else if Safe(s) then Literal(s[2..6]).value + Strip(s[6..], true)
    else if s[0] == BACKSLASH && |s| > 1 then s[..2] + Strip(s[2..], true)
    else [s[0]] + Strip(s[1..], true)
  }

  /** One step of the pass, in terms of the position it has reached. */
  lemma StripAt(src: seq<byte>, i: nat, inStr: bool)
    requires i < |src|
    ensures !inStr ==> Strip(src[i..], false) == [src[i]] + Strip(src[i + 1..], src[i] == QUOTE)
    ensures inStr && src[i] == QUOTE ==> Strip(src[i..], true) == [src[i]] + Strip(src[i + 1..], false)
    ensures inStr && src[i] == BACKSLASH && i + 5 < |src| && src[i + 1] == LETTER_U && Literal(src[i + 2..i + 6]).Some? ==>
              Strip(src[i..], true) == Literal(src[i + 2..i + 6]).value + Strip(src[i + 6..], true)
    ensures inStr && src[i] == BACKSLASH && i + 1 < |src|
            && !(i + 5 < |src| && src[i + 1] == LETTER_U && Literal(src[i + 2..i + 6]).Some?) ==>
              Strip(src[i..], true) == [src[i], src[i + 1]] + Strip(src[i + 2..], true)
    ensures inStr && src[i] != QUOTE && !(src[i] == BACKSLASH && i + 1 < |src|) ==>
              Strip(src[i..], true) == [src[i]] + Strip(src[i + 1..], true)
  {
    hide Literal;
    var rest := src[i..];
    assert rest[1..] == src[i + 1..];
    if i + 1 < |src| {
      assert rest[2..] == src[i + 2..] && rest[..2] == [src[i], src[i + 1]];
    }
    if i + 5 < |src| {
      assert rest[2..6] == src[i + 2..i + 6] && rest[6..] == src[i + 6..];
    }
  }

  method CanonLegacyForm(src: seq<byte>) returns (out: seq<byte>)
    ensures out == Strip(src, false)
  {
    hide Strip, Literal;
    out := [];
    var inStr := false;
    var i := 0;
    NothingLeft();
    while i < |src|
      invariant 0 <= i <= |src|
      invariant out + Strip(src[i..], inStr) == Strip(src, false)
    {
      StripAt(src, i, inStr);
      var ch := src[i];
      if !inStr {
        if ch == QUOTE {
          inStr := true;
        }
        out := out + [ch];
        i := i + 1;
        continue;
      }
      if ch == QUOTE {
        inStr := false;
        out := out + [ch];
      } else if ch == BACKSLASH && i + 1 < |src| {
        if src[i + 1] == LETTER_U && i + 5 < |src| {
          var lit := Literal(src[i + 2..i + 6]);
          if lit.Some? {
            out, i := out + lit.value, i + 6;
            continue;
          }
        }
        out := out + [ch, src[i + 1]];
        i := i + 1;
      } else {
        out := out + [ch];
      }
      i := i + 1;
    }
    assert src[i..] == [];
  }

  lemma NothingLeft()
    ensures Strip([], true) == [] && Strip([], false) == []
  {
  }

  // ---- idempotence, for every byte string ----

  predicate IsHex(b: byte) { 0x30 <= b <= 0x39 || 0x41 <= b <= 0x46 || 0x61 <= b <= 0x66 }

  /** Digits in the result were the same digits in the source: nothing that is stripped leaves one. */
  lemma {:induction false} HexComesThrough(s: seq<byte>, k: nat)
    requires k <= |Strip(s, true)| && forall i :: 0 <= i < k ==> IsHex(Strip(s, true)[i])
    ensures k <= |s| && s[..k] == Strip(s, true)[..k]
  {
    if k > 0 {
      var r := Strip(s, true);
      assert IsHex(r[0]);
      assert r == [s[0]] + Strip(s[1..], true);
      assert forall i :: 0 <= i < k - 1 ==> Strip(s[1..], true)[i] == r[i + 1];
      HexComesThrough(s[1..], k - 1);
      assert s[..k] == [s[0]] + s[1..][..k - 1];
    }
  }

  lemma LiteralFacts(h: seq<byte>)
    requires |h| == 4 && Literal(h).Some?
    ensures forall i :: 0 <= i < 4 ==> IsHex(h[i])
    ensures var l := Literal(h).value;
            (|l| == 1 || |l| == 3) && forall i :: 0 <= i < |l| ==> l[i] != QUOTE && l[i] != BACKSLASH
  {
  }

  /** Text without quotes and backslashes goes through unchanged. */
  lemma {:induction false} PlainComesThrough(p: seq<byte>, s: seq<byte>)
    requires forall i :: 0 <= i < |p| ==> p[i] != QUOTE && p[i] != BACKSLASH
    ensures Strip(p + s, true) == p + Strip(s, true)
  {
    if |p| == 0 {
      assert p + s == s;
    } else {
      assert (p + s)[1..] == p[1..] + s;
      PlainComesThrough(p[1..], s);
      assert p == [p[0]] + p[1..];
    }
  }

  /** An escape that is not one of the five is not one of them after stripping either. */
  lemma StillNotSafe(s: seq<byte>)
    requires |s| > 1 && s[0] == BACKSLASH && !Safe(s)
    ensures !Safe(s[..2] + Strip(s[2..], true))
  {
    var (r, t) := (Strip(s[2..], true), s[..2] + Strip(s[2..], true));
    if Safe(t) {
      assert t[2..6] == r[..4];
      LiteralFacts(r[..4]);
      assert forall i :: 0 <= i < 4 ==> r[i] == r[..4][i];
      HexComesThrough(s[2..], 4);
    }
  }

  /** Stripping twice is stripping once. */
  lemma {:induction false} StripIsIdempotent(s: seq<byte>, inStr: bool)
    ensures Strip(Strip(s, inStr), inStr) == Strip(s, inStr)
    decreases |s|
  {
    hide Literal;
    if |s| > 0 {
      var r := Strip(s, inStr);
      if !inStr {
        StripIsIdempotent(s[1..], s[0] == QUOTE);
        assert r[1..] == Strip(s[1..], s[0] == QUOTE);
      } else if s[0] == QUOTE {
        StripIsIdempotent(s[1..], false);
        assert r[1..] == Strip(s[1..], false);
      } else if Safe(s) {
        LiteralFacts(s[2..6]);
        PlainComesThrough(Literal(s[2..6]).value, Strip(s[6..], true));
        StripIsIdempotent(s[6..], true);
      } else if s[0] == BACKSLASH && |s| > 1 {
        StillNotSafe(s);
        StripIsIdempotent(s[2..], true);
        assert r[2..] == Strip(s[2..], true) && r[..2] == s[..2];
      } else {
        StripIsIdempotent(s[1..], true);
        assert r[1..] == Strip(s[1..], true);
      }
    }
  }

  // ---- texts ----

  /** What the quotes and escapes of a JSON text promise: characters that HTML escaping touches stand
      only in strings, escapes are complete, strings are closed. */
  predicate TextOk(s: seq<byte>, inStr: bool) {
    if |s| == 0 then !inStr
    else if !inStr then s[0] != LT && s[0] != GT && s[0] != AMP && s[0] != 0xE2 && TextOk(s[1..], s[0] == QUOTE)
    else if s[0] == QUOTE then TextOk(s[1..], false)
    else if s[0] != BACKSLASH then TextOk(s[1..], true)
    else if |s| == 1 then false
    else if s[1] == LETTER_U then |s| > 5 && (forall i :: 2 <= i < 6 ==> IsHex(s[i])) && TextOk(s[6..], true)
    else s[1] in {QUOTE, BACKSLASH, 0x2F, 0x62, 0x66, 0x6E, 0x72, 0x74} && TextOk(s[2..], true)
  }

  /** The text has a line or paragraph separator, in UTF-8, at its head. */
  predicate Separator(s: seq<byte>) { |s| > 2 && s[0] == 0xE2 && s[1] == 0x80 && (s[2] == 0xA8 || s[2] == 0xA9) }

  /** What HTML escaping makes of the head of a text, if it touches it. */
  function Escaped(s: seq<byte>): Option<seq<byte>>
    requires |s| > 0
  {
    if s[0] == LT then Some([BACKSLASH, LETTER_U, 0x30, 0x30, 0x33, 0x63])
    else if s[0] == GT then Some([BACKSLASH, LETTER_U, 0x30, 0x30, 0x33, 0x65])
    else if s[0] == AMP then Some([BACKSLASH, LETTER_U, 0x30, 0x30, 0x32, 0x36])
    else if Separator(s) then Some([BACKSLASH, LETTER_U, 0x32, 0x30, 0x32, if s[2] == 0xA8 then 0x38 else 0x39])
    else None
  }

  function Touched(s: seq<byte>): nat
    requires |s| > 0
  {
    if Separator(s) then 3 else 1
  }

  /** HTML-safe escaping of a raw JSON text, as an encoder applies it to text it passes on. */
  function ReEscape(s: seq<byte>): seq<byte> {
    if |s| == 0 then []
    else match Escaped(s)
      case Some(e) => e + ReEscape(s[Touched(s)..])
      case None => [s[0]] + ReEscape(s[1..])
  }

  lemma EscapedIsSafe(s: seq<byte>)
    requires |s| > 0 && Escaped(s).Some?
    ensures var e := Escaped(s).value; |e| == 6 && Safe(e) && Literal(e[2..6]) == Some(s[..Touched(s)])
  {
    var e := Escaped(s).value;
    assert e[2..6] == [e[2], e[3], e[4], e[5]];
    if Separator(s) {
      assert s[..3] == [s[0], s[1], s[2]];
    } else {
      assert s[..1] == [s[0]];
    }
  }

  lemma StripsSafe(e: seq<byte>, s: seq<byte>)
    requires |e| == 6 && Safe(e)
    ensures Strip(e + s, true) == Literal(e[2..6]).value + Strip(s, true)
  {
    hide Literal;
    assert (e + s)[2..6] == e[2..6] && (e + s)[6..] == s;
  }

  predicate Plain(p: seq<byte>) { forall i :: 0 <= i < |p| ==> p[i] != QUOTE && p[i] != BACKSLASH }

  lemma {:induction false} PlainIsOk(s: seq<byte>, k: nat)
    requires k <= |s| && Plain(s[..k]) && TextOk(s, true)
    ensures TextOk(s[k..], true)
  {
    if k > 0 {
      assert s[0] == s[..k][0];
      assert s[1..][..k - 1] == s[..k][1..];
      PlainIsOk(s[1..], k - 1);
      assert s[1..][k - 1..] == s[k..];
    } else {
      assert s[0..] == s;
    }
  }

  /** What escaping touches is plain text inside a string. */
  lemma TouchedIsPlain(s: seq<byte>)
    requires |s| > 0 && TextOk(s, true) && Escaped(s).Some?
    ensures Strip(s, true) == s[..Touched(s)] + Strip(s[Touched(s)..], true)
    ensures TextOk(s[Touched(s)..], true)
  {
    hide Strip, TextOk;
    PlainComesThrough(s[..Touched(s)], s[Touched(s)..]);
    assert s == s[..Touched(s)] + s[Touched(s)..];
    PlainIsOk(s, Touched(s));
  }

  /** HTML escaping of a text, applied or not, makes no difference to its legacy form. */
  lemma {:induction false} ReEscapeCancels(s: seq<byte>, inStr: bool)
    requires TextOk(s, inStr)
    ensures Strip(ReEscape(s), inStr) == Strip(s, inStr)
    decreases |s|, 1
  {
    hide Literal, Safe;
    if |s| > 0 {
      if !inStr {
        ReEscapeCancels(s[1..], s[0] == QUOTE);
        assert ReEscape(s)[1..] == ReEscape(s[1..]);
      } else if Escaped(s).Some? {
        hide Strip;
        EscapedIsSafe(s);
        TouchedIsPlain(s);
        StripsSafe(Escaped(s).value, ReEscape(s[Touched(s)..]));
        ReEscapeCancels(s[Touched(s)..], true);
      } else {
        UnescapedCancels(s);
      }
    }
  }

  /** Neither a quote, nor an escape, nor a plain byte is touched by HTML escaping. */
  lemma {:induction false} UnescapedCancels(s: seq<byte>)
    requires |s| > 0 && TextOk(s, true) && Escaped(s).None?
    ensures Strip(ReEscape(s), true) == Strip(s, true)
    decreases |s|, 0
  {
    hide Literal;
    var r := ReEscape(s);
    if s[0] == QUOTE {
      ReEscapeCancels(s[1..], false);
      assert r[1..] == ReEscape(s[1..]);
    } else if s[0] != BACKSLASH {
      ReEscapeCancels(s[1..], true);
      assert r[1..] == ReEscape(s[1..]);
    } else if s[1] != LETTER_U {
      ReEscapeCancels(s[2..], true);
      assert s[1..][1..] == s[2..];
      assert r == s[..2] + ReEscape(s[2..]);
      assert r[2..] == ReEscape(s[2..]) && r[..2] == s[..2];
    } else {
      ReEscapeCancels(s[6..], true);
      OtherEscape(s);
    }
  }

  lemma OtherEscape(s: seq<byte>)
    requires |s| > 5 && s[0] == BACKSLASH && s[1] == LETTER_U && forall i :: 2 <= i < 6 ==> IsHex(s[i])
    requires Strip(ReEscape(s[6..]), true) == Strip(s[6..], true)
    ensures Strip(ReEscape(s), true) == Strip(s, true)
  {
    EscapeThrough(s[..6], s[6..], s);
  }

  lemma EscapeThrough(e: seq<byte>, t: seq<byte>, s: seq<byte>)
    requires |e| == 6 && e[0] == BACKSLASH && e[1] == LETTER_U && forall i :: 2 <= i < 6 ==> IsHex(e[i])
    requires s == e + t && Strip(ReEscape(t), true) == Strip(t, true)
    ensures Strip(ReEscape(s), true) == Strip(s, true)
  {
    hide *;
    FullEscape(e, t);
    FullEscape(e, ReEscape(t));
    EscapeUntouched(e, t);
  }

  lemma EscapeUntouched(e: seq<byte>, t: seq<byte>)
    requires |e| == 6 && e[0] == BACKSLASH && e[1] == LETTER_U && forall i :: 2 <= i < 6 ==> IsHex(e[i])
    ensures ReEscape(e + t) == e + ReEscape(t)
  {
    hide *;
    HexUntouched(e + t, 6);
    assert (e + t)[..6] == e && (e + t)[6..] == t;
  }

  /** A complete escape is stripped alone, whatever follows it. */
  lemma FullEscape(e: seq<byte>, s: seq<byte>)
    requires |e| == 6 && e[0] == BACKSLASH && e[1] == LETTER_U && forall i :: 2 <= i < 6 ==> IsHex(e[i])
    ensures Strip(e + s, true) == (if Safe(e) then Literal(e[2..6]).value else e) + Strip(s, true)
  {
    hide Literal;
    assert (e + s)[2..6] == e[2..6];
    if Safe(e) {
      StripsSafe(e, s);
    } else {
      assert (e + s)[2..] == e[2..] + s && (e + s)[..2] == e[..2];
      assert Strip(e + s, true) == e[..2] + Strip(e[2..] + s, true);
      PlainComesThrough(e[2..], s);
      assert e == e[..2] + e[2..];
    }
  }

  lemma Untouched(s: seq<byte>)
    requires |s| > 0 && Escaped(s).None?
    ensures ReEscape(s) == [s[0]] + ReEscape(s[1..])
  {
  }

  lemma {:induction false} HexUntouched(s: seq<byte>, k: nat)
    requires k <= |s|
    requires forall i :: 0 <= i < k ==> s[i] == BACKSLASH || s[i] == LETTER_U || IsHex(s[i])
    ensures ReEscape(s) == s[..k] + ReEscape(s[k..])
  {
    hide ReEscape;
    if k > 0 {
      Untouched(s);
      HexUntouched(s[1..], k - 1);
      assert s[1..][k - 1..] == s[k..] && s[..k] == [s[0]] + s[1..][..k - 1];
    } else {
      assert s[0..] == s;
    }
  }

  // ---- what a text says ----

  /** A byte outside or inside a string, or half of a surrogate pair written as an escape. */
  datatype Mark = Out(b: byte) | In(b: byte) | Half(unit: int)

  function HexValue(b: byte): (v: int)
    requires IsHex(b)
    ensures 0 <= v < 16
  {
    if b <= 0x39 then b as int - 0x30 else if b <= 0x46 then b as int - 0x37 else b as int - 0x57
  }

  /** A code point below 65536 in UTF-8, section 3 of RFC 3629. */
  function Utf8(v: int): seq<byte>
    requires 0 <= v < 0x10000
  {
    if v < 0x80 then [v as byte]
    else if v < 0x800 then [(0xC0 + v / 64) as byte, (0x80 + v % 64) as byte]
    else [(0xE0 + v / 4096) as byte, (0x80 + v / 64 % 64) as byte, (0x80 + v % 64) as byte]
  }

  function Inside(p: seq<byte>): seq<Mark> { Map(b => In(b), p) }

  predicate Digits(h: seq<byte>) { |h| == 4 && forall i :: 0 <= i < 4 ==> IsHex(h[i]) }

  function Code(h: seq<byte>): (v: int)
    requires Digits(h)
    ensures 0 <= v < 0x10000
  {
    HexValue(h[0]) * 4096 + HexValue(h[1]) * 256 + HexValue(h[2]) * 16 + HexValue(h[3])
  }

  function Decoded(h: seq<byte>): seq<Mark>
    requires Digits(h)
  {
    if 0xD800 <= Code(h) < 0xE000 then [Half(Code(h))] else Inside(Utf8(Code(h)))
  }

  function Short(b: byte): byte {
    if b == 0x62 then 8 else if b == 0x66 then 12 else if b == 0x6E then 10
    else if b == 0x72 then 13 else if b == 0x74 then 9 else b
  }

  predicate CodeEscape(s: seq<byte>) { |s| > 5 && s[0] == BACKSLASH && s[1] == LETTER_U && Digits(s[2..6]) }

  /** The text with every escape read: section 7 of RFC 8259. */
  function Meaning(s: seq<byte>, inStr: bool): seq<Mark> {
    if |s| == 0 then []
    else if !inStr then [Out(s[0])] + Meaning(s[1..], s[0] == QUOTE)
    else if s[0] == QUOTE then [Out(QUOTE)] + Meaning(s[1..], false)
    else if CodeEscape(s) then Decoded(s[2..6]) + Meaning(s[6..], true)
    else if s[0] == BACKSLASH && |s| > 1 then [In(Short(s[1]))] + Meaning(s[2..], true)
    else [In(s[0])] + Meaning(s[1..], true)
  }

  lemma DigitValue(b: byte)
    requires IsHex(b)
    ensures HexValue(b) == if Lower(b) <= 0x39 then Lower(b) as int - 0x30 else Lower(b) as int - 0x57
    ensures 0x30 <= Lower(b) <= 0x39 || 0x61 <= Lower(b) <= 0x66
  {
  }

  predicate HtmlUnsafe(v: int) { v == 0x3C || v == 0x3E || v == 0x26 || v == 0x2028 || v == 0x2029 }

  lemma CodeDigits(a: int, b: int, c: int, d: int, w: int, x: int, y: int, z: int)
    requires 0 <= a < 16 && 0 <= b < 16 && 0 <= c < 16 && 0 <= d < 16
    requires 0 <= w < 16 && 0 <= x < 16 && 0 <= y < 16 && 0 <= z < 16
    ensures a * 4096 + b * 256 + c * 16 + d == w * 4096 + x * 256 + y * 16 + z <==> a == w && b == x && c == y && d == z
  {
    if a * 4096 + b * 256 + c * 16 + d == w * 4096 + x * 256 + y * 16 + z {
      HighDigit(a, w, 4096, b * 256 + c * 16 + d, x * 256 + y * 16 + z);
      HighDigit(b, x, 256, c * 16 + d, y * 16 + z);
      HighDigit(c, y, 16, d, z);
    }
  }

  lemma HighDigit(a: int, w: int, unit: int, p: int, q: int)
    requires unit in {16, 256, 4096} && 0 <= p < unit && 0 <= q < unit && a * unit + p == w * unit + q
    ensures a == w && p == q
  {
  }

  /** The digits written for a code, in either case. */
  lemma CodeIs(h: seq<byte>, w: int, x: int, y: int, z: int)
    requires Digits(h) && 0 <= w < 16 && 0 <= x < 16 && 0 <= y < 16 && 0 <= z < 16
    ensures Code(h) == w * 4096 + x * 256 + y * 16 + z <==>
            HexValue(h[0]) == w && HexValue(h[1]) == x && HexValue(h[2]) == y && HexValue(h[3]) == z
  {
    hide HexValue;
    CodeDigits(HexValue(h[0]), HexValue(h[1]), HexValue(h[2]), HexValue(h[3]), w, x, y, z);
  }

  /** Exactly the five escapes are taken for a character, in either case of their digits, and each for its own. */
  lemma LiteralExactly(h: seq<byte>)
    requires |h| == 4
    ensures Literal(h).Some? <==> Digits(h) && HtmlUnsafe(Code(h))
    ensures Literal(h).Some? ==> Literal(h).value == Utf8(Code(h))
  {
    hide Utf8, HexValue, IsHex;
    if Literal(h).Some? {
      LiteralCode(h);
      LiteralText(h);
    }
    if Digits(h) && HtmlUnsafe(Code(h)) {
      CodeIs(h, 0, 0, 3, 12);
      CodeIs(h, 0, 0, 3, 14);
      CodeIs(h, 0, 0, 2, 6);
      CodeIs(h, 2, 0, 2, 8);
      CodeIs(h, 2, 0, 2, 9);
      DigitValue(h[0]);
      DigitValue(h[1]);
      DigitValue(h[2]);
      DigitValue(h[3]);
    }
  }

  lemma LiteralText(h: seq<byte>)
    requires |h| == 4 && Literal(h).Some? && Digits(h)
    ensures Literal(h).value == Utf8(Code(h))
  {
    hide HexValue;
    LiteralCode(h);
  }

  /** The code point of each of the five escapes. */
  lemma LiteralCode(h: seq<byte>)
    requires |h| == 4 && Literal(h).Some?
    ensures Digits(h)
    ensures var (l, v) := (Literal(h).value, Code(h));
            || (l == [LT] && v == 0x3C) || (l == [GT] && v == 0x3E) || (l == [AMP] && v == 0x26)
            || (l == LINE_SEPARATOR && v == 0x2028) || (l == PARAGRAPH_SEPARATOR && v == 0x2029)
  {
    LiteralFacts(h);
    DigitValue(h[0]);
    DigitValue(h[1]);
    DigitValue(h[2]);
    DigitValue(h[3]);
    hide HexValue, IsHex, Lower;
  }

  lemma LiteralMeansEscape(h: seq<byte>)
    requires |h| == 4 && Literal(h).Some?
    ensures Digits(h) && Decoded(h) == Inside(Literal(h).value) && Plain(Literal(h).value)
  {
    hide Literal, Digits, Code;
    LiteralCode(h);
    LiteralFacts(h);
    assert Utf8(0x3C) == [LT] && Utf8(0x3E) == [GT] && Utf8(0x26) == [AMP];
    assert Utf8(0x2028) == LINE_SEPARATOR && Utf8(0x2029) == PARAGRAPH_SEPARATOR;
  }

  lemma PlainHead(t: seq<byte>)
    requires |t| > 0 && t[0] != QUOTE && t[0] != BACKSLASH
    ensures Meaning(t, true) == [In(t[0])] + Meaning(t[1..], true)
  {
  }

  lemma {:induction false} PlainMeans(p: seq<byte>, s: seq<byte>)
    requires Plain(p)
    ensures Meaning(p + s, true) == Inside(p) + Meaning(s, true)
  {
    hide Meaning;
    if |p| == 0 {
      assert p + s == s;
      assert Inside(p) == [];
    } else {
      var t := p + s;
      assert t[1..] == p[1..] + s && t[0] == p[0];
      PlainMeans(p[1..], s);
      PlainHead(t);
      assert Inside(p) == [In(p[0])] + Inside(p[1..]);
    }
  }

  /** Stripping changes how a text is written, never what it says. */
  lemma {:induction false} StripKeepsMeaning(s: seq<byte>, inStr: bool)
    requires TextOk(s, inStr)
    ensures Meaning(Strip(s, inStr), inStr) == Meaning(s, inStr)
    decreases |s|, 1
  {
    hide Literal, Decoded, Digits;
    if |s| > 0 {
      var r := Strip(s, inStr);
      if !inStr {
        StripKeepsMeaning(s[1..], s[0] == QUOTE);
        assert r[1..] == Strip(s[1..], s[0] == QUOTE);
      } else if s[0] == QUOTE {
        StripKeepsMeaning(s[1..], false);
        assert r[1..] == Strip(s[1..], false);
      } else if s[0] != BACKSLASH {
        StripKeepsMeaning(s[1..], true);
        assert r[1..] == Strip(s[1..], true);
      } else {
        EscapeKeepsMeaning(s);
      }
    }
  }

  lemma {:induction false} EscapeKeepsMeaning(s: seq<byte>)
    requires |s| > 0 && s[0] == BACKSLASH && TextOk(s, true)
    ensures Meaning(Strip(s, true), true) == Meaning(s, true)
    decreases |s|, 0
  {
    hide Literal, Decoded, Strip, Meaning;
    if s[1] != LETTER_U {
      StripKeepsMeaning(s[2..], true);
      ShortMeans(s[..2], s[2..]);
      ShortMeans(s[..2], Strip(s[2..], true));
      assert s == s[..2] + s[2..];
    } else {
      StripKeepsMeaning(s[6..], true);
      assert s == s[..6] + s[6..];
      var e := s[..6];
      assert Digits(e[2..6]);
      FullEscape(e, s[6..]);
      CodeMeans(e, s[6..]);
      if Safe(e) {
        LiteralMeansEscape(e[2..6]);
        PlainMeans(Literal(e[2..6]).value, Strip(s[6..], true));
      } else {
        CodeMeans(e, Strip(s[6..], true));
      }
    }
  }

  lemma CodeMeans(e: seq<byte>, s: seq<byte>)
    requires |e| == 6 && CodeEscape(e)
    ensures Meaning(e + s, true) == Decoded(e[2..6]) + Meaning(s, true)
  {
    hide Decoded;
    assert (e + s)[2..6] == e[2..6] && (e + s)[6..] == s;
  }

  lemma ShortMeans(e: seq<byte>, s: seq<byte>)
    requires |e| == 2 && e[0] == BACKSLASH && e[1] != LETTER_U
    ensures Meaning(e + s, true) == [In(Short(e[1]))] + Meaning(s, true)
    ensures Strip(e + s, true) == e + Strip(s, true)
  {
    assert (e + s)[2..] == s && (e + s)[..2] == e;
  }

  /** The legacy digest is of what the text says: texts with one legacy form say the same. */
  lemma SameFormSameMeaning(a: seq<byte>, b: seq<byte>)
    requires TextOk(a, false) && TextOk(b, false) && Strip(a, false) == Strip(b, false)
    ensures Meaning(a, false) == Meaning(b, false)
  {
    hide Strip, Meaning, TextOk;
    StripKeepsMeaning(a, false);
    StripKeepsMeaning(b, false);
  }

  /** An escaped backslash before the letters u003c is two characters of text, not an escape. */
  lemma EscapedBackslashStays(s: seq<byte>)
    ensures var e: seq<byte> := [BACKSLASH, BACKSLASH, LETTER_U, 0x30, 0x30, 0x33, 0x63];
            Strip(e + s, true) == e + Strip(s, true)
  {
    hide Strip;
    var e: seq<byte> := [BACKSLASH, BACKSLASH, LETTER_U, 0x30, 0x30, 0x33, 0x63];
    assert e + s == e[..2] + (e[2..] + s);
    ShortMeans(e[..2], e[2..] + s);
    PlainComesThrough(e[2..], s);
  }
}
