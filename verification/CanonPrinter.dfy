/** The recursive printer of the sorted canonical form, over a stateful token decoder. */
module CanonPrinter {
  import opened Ordering
  import opened JsonText
  import opened JsonReader
  import opened SortedCanon

  class Buffer {
    var text: string

    constructor ()
      ensures text == ""
    {
      text := "";
    }

    method Write(s: string)
      modifies this
      ensures text == old(text) + s
    {
      text := text + s;
    }
  }

  /** Where the decoder stands inside the brackets it has opened. */
  datatype Place = InArray | AtKey | AtValue

  predicate ValueAllowed(nest: seq<Place>) { |nest| == 0 || nest[|nest| - 1] != AtKey }

  function AfterValue(nest: seq<Place>): seq<Place> {
    if |nest| > 0 && nest[|nest| - 1].AtValue? then nest[..|nest| - 1] + [AtKey] else nest
  }

  predicate Innermost(nest: seq<Place>, p: Place) { |nest| > 0 && nest[|nest| - 1] == p }

  /** Whether the grammar allows the token here. */
  predicate Allowed(nest: seq<Place>, t: Token) {
    match t
    case CloseArr => Innermost(nest, InArray)
    case CloseObj => Innermost(nest, AtKey)
    case TStr(_) => true
    case _ => ValueAllowed(nest)
  }

  function After(nest: seq<Place>, t: Token): seq<Place>
    requires Allowed(nest, t)
  {
    match t
    case OpenArr => nest + [InArray]
    case OpenObj => nest + [AtKey]
    case CloseArr => AfterValue(nest[..|nest| - 1])
    case CloseObj => AfterValue(nest[..|nest| - 1])
    case TStr(_) => if Innermost(nest, AtKey) then nest[..|nest| - 1] + [AtValue] else AfterValue(nest)
    case _ => AfterValue(nest)
  }

  class Decoder {
    const toks: seq<Token>
    var pos: nat
    var nest: seq<Place>

    ghost predicate Valid() reads this { pos <= |toks| }

    ghost function Left(): seq<Token>
      requires Valid()
      reads this
    {
      toks[pos..]
    }

    constructor (toks: seq<Token>)
      ensures Valid() && Left() == toks && nest == []
    {
      this.toks := toks;
      pos, nest := 0, [];
    }

    /** Whether the innermost array or object goes on. */
    method More() returns (more: bool)
      requires Valid()
      ensures more <==> |Left()| > 0 && !Left()[0].CloseArr? && !Left()[0].CloseObj?
    {
      more := pos < |toks| && !toks[pos].CloseArr? && !toks[pos].CloseObj?;
    }

    /** The next token; none at the end of the text or where the grammar forbids it. */
    method Next() returns (t: Option<Token>)
      requires Valid()
      modifies this
      ensures Valid()
      ensures t.Some? <==> |old(Left())| > 0 && Allowed(old(nest), old(Left())[0])
      ensures t.Some? ==> t.value == old(Left())[0] && Left() == old(Left())[1..] && nest == After(old(nest), t.value)
      ensures t.None? ==> Left() == old(Left()) && nest == old(nest)
    {
      if pos == |toks| || !Allowed(nest, toks[pos]) {
        return None;
      }
      t := Some(toks[pos]);
      nest := After(nest, toks[pos]);
      pos := pos + 1;
    }
  }

  /** One printed member, as the printer keeps it until the keys are sorted. */
  datatype Printed = Printed(key: string, text: string)

  predicate PrintedLess(a: Printed, b: Printed) { TextLess(a.key, b.key) }

  function Shown(m: Member): Printed { Printed(m.key, Print(m.value)) }

  lemma ShownCons(m: Member, ms: seq<Member>)
    ensures Map(Shown, [m] + ms) == [Shown(m)] + Map(Shown, ms)
  {
    hide Shown;
  }

  lemma {:induction false} InsertShown(m: Member, ms: seq<Member>)
    ensures Insert(Shown(m), Map(Shown, ms), PrintedLess) == Map(Shown, Insert(m, ms, KeyLess))
  {
    hide Print, TextLess, Map;
    if |ms| == 0 {
      ShownCons(m, []);
      assert [m] + [] == [m];
      NothingShown();
    } else {
      var (a, rest) := (ms[0], ms[1..]);
      ShownCons(a, rest);
      assert ms == [a] + rest;
      InsertShown(m, rest);
      if KeyLess(a, m) {
        ShownCons(a, Insert(m, rest, KeyLess));
      } else {
        ShownCons(m, ms);
      }
    }
  }

  lemma NothingShown()
    ensures Map(Shown, []) == []
  {
  }

  /** Sorting the printed members by key is printing the sorted members. */
  lemma {:induction false} SortShown(ms: seq<Member>)
    ensures Sort(Map(Shown, ms), PrintedLess) == Map(Shown, Sort(ms, KeyLess))
  {
    hide Print, TextLess, Insert;
    if |ms| > 0 {
      assert Map(Shown, ms)[1..] == Map(Shown, ms[1..]);
      SortShown(ms[1..]);
      InsertShown(ms[0], Sort(ms[1..], KeyLess));
    }
  }

  lemma {:induction false} PrintItemsSnoc(items: seq<Json>, v: Json)
    ensures PrintItems(items + [v]) == PrintItems(items) + (if |items| > 0 then "," else "") + Print(v)
  {
    hide Print;
    if |items| == 0 {
      assert items + [v] == [v];
      assert PrintItems([v]) == Print(v) + MoreItems([v][1..]);
    } else {
      PrintItemsSnoc(items[1..], v);
      assert (items + [v])[1..] == items[1..] + [v];
    }
  }

  lemma NoMoreMembers()
    ensures MoreMembers([]) == "" && PrintMembers([]) == ""
  {
  }

  lemma CommaThenMembers(ms: seq<Member>)
    requires |ms| > 0
    ensures MoreMembers(ms) == "," + PrintMembers(ms)
  {
  }

  lemma {:induction false} PrintMembersSnoc(ms: seq<Member>, m: Member)
    ensures PrintMembers(ms + [m]) == PrintMembers(ms) + (if |ms| > 0 then "," else "") + PrintMember(m)
  {
    hide PrintMember, MoreMembers;
    if |ms| == 0 {
      assert ms + [m] == [m];
      assert PrintMembers([m]) == PrintMember(m) + MoreMembers([m][1..]);
      NoMoreMembers();
    } else {
      var (rest, more) := (ms[1..], ms[1..] + [m]);
      PrintMembersSnoc(rest, m);
      assert (ms + [m])[1..] == more;
      CommaThenMembers(more);
      if |rest| == 0 {
        NoMoreMembers();
      } else {
        CommaThenMembers(rest);
      }
    }
  }

  method CanonString(out: Buffer, s: string)
    modifies out
    ensures out.text == old(out.text) + Quote(s)
  {
    hide Body, Escape;
    out.Write("\"");
    ghost var before := out.text;
    NoBody();
    for i := 0 to |s|
      invariant out.text == before + Body(s[..i])
    {
      BodySnoc(s, i);
      Assoc(before, Body(s[..i]), Escape(s[i]));
      out.Write(Escape(s[i]));
    }
    assert s[..|s|] == s;
    out.Write("\"");
    Assoc(old(out.text), "\"", Body(s));
    Assoc(old(out.text), "\"" + Body(s), "\"");
  }

  lemma NoBody()
    ensures Body([]) == ""
  {
  }

  lemma {:induction false} BodySnoc(s: string, i: nat)
    requires i < |s|
    ensures Body(s[..i + 1]) == Body(s[..i]) + Escape(s[i])
    decreases i
  {
    hide Escape;
    if i > 0 {
      BodySnoc(s[1..], i - 1);
      assert s[..i + 1][1..] == s[1..][..i] && s[..i][1..] == s[1..][..i - 1];
    } else {
      assert s[..1] == [s[0]] && s[..0] == [];
      assert Body([s[0]]) == Escape(s[0]) + Body([s[0]][1..]);
    }
  }

  method WriteMember(out: Buffer, item: Printed, ghost m: Member)
    requires item == Shown(m)
    modifies out
    ensures out.text == old(out.text) + PrintMember(m)
  {
    hide Print, Quote;
    ghost var before := out.text;
    CanonString(out, item.key);
    out.Write(":");
    out.Write(item.text);
    Assoc(before + Quote(item.key), ":", item.text);
    Assoc(before, Quote(item.key), ":" + item.text);
  }

  /** Writes the members of an object, in the order given. */
  method WriteMembers(out: Buffer, items: seq<Printed>, ghost ms: seq<Member>)
    requires items == Map(Shown, ms)
    modifies out
    ensures out.text == old(out.text) + PrintMembers(ms)
  {
    hide Print, Quote, PrintMembers, PrintMember;
    ghost var before := out.text;
    NoText();
    for i := 0 to |items|
      invariant out.text == before + PrintMembers(ms[..i])
    {
      PrintMembersSnoc(ms[..i], ms[i]);
      assert ms[..i + 1] == ms[..i] + [ms[i]];
      ghost var comma := if i > 0 then "," else "";
      if i > 0 {
        out.Write(",");
      }
      assert out.text == before + (PrintMembers(ms[..i]) + comma);
      WriteMember(out, items[i], ms[i]);
      Assoc(before, PrintMembers(ms[..i]) + comma, PrintMember(ms[i]));
    }
    assert ms[..|ms|] == ms;
  }

  lemma NoText()
    ensures PrintMembers([]) == "" && PrintItems([]) == ""
  {
  }

  /** What is read so far and what is left together parse as the whole did. */
  ghost predicate ItemsSoFar(whole: seq<Token>, items: seq<Json>, left: seq<Token>) {
    ParseItems(whole) ==
    match ParseItems(left) case None => None case Some(q) => Some((items + q.0, q.1))
  }

  ghost predicate MembersSoFar(whole: seq<Token>, ms: seq<Member>, left: seq<Token>) {
    ParseMembers(whole) ==
    match ParseMembers(left) case None => None case Some(q) => Some((ms + q.0, q.1))
  }

  lemma ItemsBegin(whole: seq<Token>)
    ensures ItemsSoFar(whole, [], whole)
  {
    hide ParseItems;
    if ParseItems(whole).Some? {
      assert [] + ParseItems(whole).value.0 == ParseItems(whole).value.0;
    }
  }

  lemma MembersBegin(whole: seq<Token>)
    ensures MembersSoFar(whole, [], whole)
  {
    hide ParseMembers;
    if ParseMembers(whole).Some? {
      assert [] + ParseMembers(whole).value.0 == ParseMembers(whole).value.0;
    }
  }

  /** Reading one more item; without one the whole array does not parse. */
  lemma ItemsStep(whole: seq<Token>, items: seq<Json>, left: seq<Token>)
    requires ItemsSoFar(whole, items, left) && |left| > 0 && !left[0].CloseArr?
    ensures Parse(left).None? ==> ParseItems(whole).None?
    ensures Parse(left).Some? ==> ItemsSoFar(whole, items + [Parse(left).value.0], Parse(left).value.1)
  {
    hide Parse;
    if Parse(left).Some? && ParseItems(left).Some? {
      var (v, more) := (Parse(left).value.0, ParseItems(Parse(left).value.1).value.0);
      assert items + ([v] + more) == (items + [v]) + more;
    }
  }

  lemma MembersStep(whole: seq<Token>, ms: seq<Member>, left: seq<Token>)
    requires MembersSoFar(whole, ms, left) && |left| > 0 && left[0].TStr?
    ensures Parse(left[1..]).None? ==> ParseMembers(whole).None?
    ensures Parse(left[1..]).Some? ==>
              MembersSoFar(whole, ms + [Member(left[0].s, Parse(left[1..]).value.0)], Parse(left[1..]).value.1)
  {
    hide Parse;
    var p := Parse(left[1..]);
    if p.Some? && ParseMembers(left).Some? {
      var (m, more) := (Member(left[0].s, p.value.0), ParseMembers(p.value.1).value.0);
      assert ms + ([m] + more) == (ms + [m]) + more;
    }
  }

  lemma ItemsEnd(whole: seq<Token>, items: seq<Json>, left: seq<Token>)
    requires ItemsSoFar(whole, items, left) && (|left| == 0 || left[0].CloseArr? || left[0].CloseObj?)
    ensures |left| > 0 && left[0].CloseArr? ==> ParseItems(whole) == Some((items, left[1..]))
    ensures |left| == 0 || left[0].CloseObj? ==> ParseItems(whole).None?
  {
    if |left| > 0 && left[0].CloseObj? {
      assert Parse(left).None?;
    }
    assert items + [] == items;
  }

  lemma MembersEnd(whole: seq<Token>, ms: seq<Member>, left: seq<Token>)
    requires MembersSoFar(whole, ms, left) && (|left| == 0 || !left[0].TStr?)
    ensures |left| > 0 && left[0].CloseObj? ==> ParseMembers(whole) == Some((ms, left[1..]))
    ensures |left| == 0 || !left[0].CloseObj? ==> ParseMembers(whole).None?
  {
    assert ms + [] == ms;
  }

  lemma NormItemsSnoc(items: seq<Json>, v: Json)
    ensures NormItems(items + [v]) == NormItems(items) + [Norm(v)]
    ensures |NormItems(items)| == |items|
  {
    hide Norm;
    NormItemsAt(items);
    assert (items + [v])[..|items|] == items;
  }

  lemma NormMembersSnoc(ms: seq<Member>, m: Member)
    ensures NormMembers(ms + [m]) == NormMembers(ms) + [Member(m.key, Norm(m.value))]
  {
    hide Norm;
    assert (ms + [m])[..|ms|] == ms;
  }

  /** The rest of an array, after its opening bracket. */
  method CanonArray(dec: Decoder, out: Buffer) returns (ok: bool)
    requires dec.Valid() && Innermost(dec.nest, InArray)
    modifies dec, out
    ensures dec.Valid()
    ensures ok <==> ParseItems(old(dec.Left())).Some?
    ensures ok ==>
              var p := ParseItems(old(dec.Left())).value;
              && dec.Left() == p.1 && dec.nest == AfterValue(old(dec.nest)[..|old(dec.nest)| - 1])
              && out.text == old(out.text) + PrintItems(NormItems(p.0)) + "]"
    decreases |dec.Left()|, 1
  {
    hide Print, Norm, NormItems, PrintItems, Parse, ParseItems, ItemsSoFar;
    ghost var (whole, before) := (dec.Left(), out.text);
    ghost var items: seq<Json> := [];
    ItemsBegin(whole);
    NoItemsYet();
    var first := true;
    var more := dec.More();
    while more
      invariant dec.Valid() && dec.nest == old(dec.nest) && |dec.Left()| <= |whole|
      invariant more <==> |dec.Left()| > 0 && !dec.Left()[0].CloseArr? && !dec.Left()[0].CloseObj?
      invariant ItemsSoFar(whole, items, dec.Left())
      invariant first <==> |items| == 0
      invariant out.text == before + PrintItems(NormItems(items))
      decreases |dec.Left()|
    {
      ghost var left := dec.Left();
      ghost var sofar := PrintItems(NormItems(items));
      ItemsStep(whole, items, left);
      ghost var comma := if first then "" else ",";
      if !first {
        out.Write(",");
      }
      assert out.text == before + (sofar + comma);
      var fine := CanonValue(dec, out);
      if !fine {
        return false;
      }
      ghost var v := Parse(left).value.0;
      NormItemsSnoc(items, v);
      PrintItemsSnoc(NormItems(items), Norm(v));
      Assoc(before, sofar + comma, Canon(v));
      items := items + [v];
      first := false;
      more := dec.More();
    }
    ItemsEnd(whole, items, dec.Left());
    var close := dec.Next();
    if close.None? {
      return false;
    }
    out.Write("]");
    return true;
  }

  lemma NoItemsYet()
    ensures NormItems([]) == [] && NormMembers([]) == []
    ensures PrintMembers([]) == "" && PrintItems([]) == ""
  {
  }

  lemma ShownSnoc(ms: seq<Member>, m: Member)
    ensures Map(Shown, ms + [m]) == Map(Shown, ms) + [Shown(m)]
  {
    hide Print;
  }

  /** The rest of an object, after its opening brace. */
  method CanonObject(dec: Decoder, out: Buffer) returns (ok: bool)
    requires dec.Valid() && Innermost(dec.nest, AtKey)
    modifies dec, out
    ensures dec.Valid()
    ensures ok <==> ParseMembers(old(dec.Left())).Some?
    ensures ok ==>
              var p := ParseMembers(old(dec.Left())).value;
              && dec.Left() == p.1 && dec.nest == AfterValue(old(dec.nest)[..|old(dec.nest)| - 1])
              && out.text == old(out.text) + ("{" + (PrintMembers(Sort(NormMembers(p.0), KeyLess)) + "}"))
    decreases |dec.Left()|, 1
  {
    hide Print, Norm, NormMembers, PrintMembers, Parse, ParseMembers, MembersSoFar, Sort;
    ghost var (whole, before) := (dec.Left(), out.text);
    ghost var ms: seq<Member> := [];
    MembersBegin(whole);
    NoItemsYet();
    var items: seq<Printed> := [];
    var more := dec.More();
    while more
      invariant dec.Valid() && dec.nest == old(dec.nest) && |dec.Left()| <= |whole|
      invariant more <==> |dec.Left()| > 0 && !dec.Left()[0].CloseArr? && !dec.Left()[0].CloseObj?
      invariant MembersSoFar(whole, ms, dec.Left())
      invariant items == Map(Shown, NormMembers(ms))
      invariant out.text == before
      decreases |dec.Left()|
    {
      ghost var left := dec.Left();
      var key := dec.Next();
      if key.None? || !key.value.TStr? {
        MembersEnd(whole, ms, left);
        return false;
      }
      MembersStep(whole, ms, left);
      var text := new Buffer();
      var fine := CanonValue(dec, text);
      if !fine {
        return false;
      }
      ghost var m := Member(key.value.s, Parse(left[1..]).value.0);
      NormMembersSnoc(ms, m);
      ShownSnoc(NormMembers(ms), Member(m.key, Norm(m.value)));
      items := items + [Printed(key.value.s, text.text)];
      assert "" + Canon(m.value) == Canon(m.value);
      ms := ms + [m];
      more := dec.More();
    }
    MembersEnd(whole, ms, dec.Left());
    var close := dec.Next();
    if close.None? {
      return false;
    }
    items := Sort(items, PrintedLess);
    SortShown(NormMembers(ms));
    ghost var sorted := Sort(NormMembers(ms), KeyLess);
    out.Write("{");
    WriteMembers(out, items, sorted);
    out.Write("}");
    Assoc(before + "{", PrintMembers(sorted), "}");
    Assoc(before, "{", PrintMembers(sorted) + "}");
    return true;
  }

  /** Reads one value and appends its canonical text. */
  method CanonValue(dec: Decoder, out: Buffer) returns (ok: bool)
    requires dec.Valid() && ValueAllowed(dec.nest)
    modifies dec, out
    ensures dec.Valid()
    ensures ok <==> Parse(old(dec.Left())).Some?
    ensures ok ==>
              var p := Parse(old(dec.Left())).value;
              dec.Left() == p.1 && dec.nest == AfterValue(old(dec.nest)) && out.text == old(out.text) + Canon(p.0)
    decreases |dec.Left()|, 0
  {
    hide Sort, NormItems, NormMembers, PrintItems, PrintMembers, ParseItems, ParseMembers, Canon;
    ghost var (whole, before) := (dec.Left(), out.text);
    var t := dec.Next();
    if t.None? {
      return false;
    }
    BracketsCanon(whole);
    match t.value
    case OpenArr =>
      out.Write("[");
      ok := CanonArray(dec, out);
      if ok {
        ghost var inner := PrintItems(NormItems(Parse(whole).value.0.items));
        Assoc(before + "[", inner, "]");
        Assoc(before, "[", inner + "]");
      }
    case OpenObj => ok := CanonObject(dec, out);
    case CloseArr => ok := false;
    case CloseObj => ok := false;
    case _ =>
      WriteScalar(out, t.value);
      ok := true;
  }

  /** The value a scalar token stands for. */
  function Scalar(t: Token): Json {
    match t
    case TBool(b) => Bool(b)
    case TNum(n) => Num(n)
    case TStr(s) => Str(s)
    case _ => Null
  }

  method WriteScalar(out: Buffer, t: Token)
    requires t.TNull? || t.TBool? || t.TNum? || t.TStr?
    modifies out
    ensures out.text == old(out.text) + Canon(Scalar(t))
  {
    hide Quote;
    match t
    case TStr(s) => CanonString(out, s);
    case TNum(n) => out.Write(n);
    case TBool(b) => out.Write(if b then "true" else "false");
    case TNull => out.Write("null");
  }

  lemma BracketsCanon(whole: seq<Token>)
    ensures Parse(whole).Some? ==>
              var v := Parse(whole).value.0;
              && (v.Arr? ==> Canon(v) == "[" + (PrintItems(NormItems(v.items)) + "]"))
              && (v.Obj? ==> Canon(v) == "{" + (PrintMembers(Sort(NormMembers(v.members), KeyLess)) + "}"))
  {
    hide Parse;
  }

  /** The sorted canonical form of a token stream, or none. */
  method CanonSortedForm(toks: seq<Token>) returns (r: Option<string>)
    ensures r == CanonText(toks)
    ensures r.Some? && NumbersOk(toks) ==>
              Parse(toks).Some? && Read(r.value) == Some((Norm(Parse(toks).value.0), ""))
  {
    if CanonText(toks).Some? && NumbersOk(toks) {
      CanonReadsBack(toks);
    }
    hide Parse, Canon, Read, NumbersOk;
    var dec := new Decoder(toks);
    var out := new Buffer();
    var ok := CanonValue(dec, out);
    if !ok {
      return None;
    }
    if dec.pos != |dec.toks| {
      return None;
    }
    assert "" + Canon(Parse(toks).value.0) == Canon(Parse(toks).value.0);
    return Some(out.text);
  }
}
