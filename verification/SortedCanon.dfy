/** The sorted canonical form: a JSON text is read token by token and printed again with its object
    keys in order, one string encoding and no white space. */
module SortedCanon {
  import opened Ordering
  import opened JsonText
  import opened JsonReader

  predicate KeyLess(a: Member, b: Member) { TextLess(a.key, b.key) }

  lemma KeysAreOrdered()
    ensures WeakOrder(KeyLess)
  {
    forall a: Member, b: Member | KeyLess(a, b) ensures !KeyLess(b, a) {
      TextLessAsymmetric(a.key, b.key);
    }
    forall a: Member, b: Member, c: Member | !KeyLess(a, b) && !KeyLess(b, c) ensures !KeyLess(a, c) {
      TextLessTotal(a.key, b.key);
      TextLessTotal(b.key, c.key);
      if TextLess(b.key, a.key) && TextLess(c.key, b.key) {
        TextLessTransitive(c.key, b.key, a.key);
      }
      if TextLess(a.key, c.key) {
        TextLessAsymmetric(a.key, c.key);
      }
    }
  }

  // ---- the normal form ----

  /** Every object's members in key order; arrays and numbers as they are. */
  function Norm(v: Json): Json {
    match v
    case Arr(items) => Arr(NormItems(items))
    case Obj(ms) => Obj(Sort(NormMembers(ms), KeyLess))
    case _ => v
  }

  function NormItems(items: seq<Json>): seq<Json> {
    if |items| == 0 then [] else NormItems(items[..|items| - 1]) + [Norm(items[|items| - 1])]
  }

  function NormMembers(ms: seq<Member>): seq<Member> {
    if |ms| == 0 then []
    else
      var m := ms[|ms| - 1];
      NormMembers(ms[..|ms| - 1]) + [Member(m.key, Norm(m.value))]
  }

  lemma {:induction false} NormItemsAt(items: seq<Json>)
    ensures |NormItems(items)| == |items|
    ensures forall i :: 0 <= i < |items| ==> NormItems(items)[i] == Norm(items[i])
  {
    if |items| > 0 {
      NormItemsAt(items[..|items| - 1]);
    }
  }

  lemma {:induction false} NormMembersAt(ms: seq<Member>)
    ensures |NormMembers(ms)| == |ms|
    ensures forall i :: 0 <= i < |ms| ==> NormMembers(ms)[i] == Member(ms[i].key, Norm(ms[i].value))
  {
    if |ms| > 0 {
      NormMembersAt(ms[..|ms| - 1]);
    }
  }

  lemma {:induction false} NormIsWf(v: Json)
    requires Wf(v)
    ensures Wf(Norm(v))
    decreases v
  {
    match v
    case Arr(items) =>
      NormItemsAt(items);
      forall w | w in NormItems(items) ensures Wf(w) {
        var i :| 0 <= i < |items| && NormItems(items)[i] == w;
        assert items[i] in items;
        NormIsWf(items[i]);
      }
    case Obj(ms) =>
      NormMembersAt(ms);
      var (n, r) := (NormMembers(ms), Sort(NormMembers(ms), KeyLess));
      SortKeepsElements(n, KeyLess);
      forall m | m in r ensures Wf(m.value) {
        assert m in multiset(n);
        var i :| 0 <= i < |ms| && n[i] == m;
        assert ms[i] in ms;
        NormIsWf(ms[i].value);
      }
    case _ =>
  }

  /** The normal form is its own normal form. */
  lemma {:induction false} NormIsIdempotent(v: Json)
    ensures Norm(Norm(v)) == Norm(v)
    decreases v
  {
    hide Sort, NormItems, NormMembers, KeyLess, WeakOrder, Sorted;
    match v
    case Arr(items) =>
      NormItemsAt(items);
      NormItemsAt(NormItems(items));
      forall i | 0 <= i < |items| ensures NormItems(NormItems(items))[i] == NormItems(items)[i] {
        NormIsIdempotent(items[i]);
      }
      assert NormItems(NormItems(items)) == NormItems(items);
    case Obj(ms) =>
      var (n, r) := (NormMembers(ms), Sort(NormMembers(ms), KeyLess));
      NormMembersAt(ms);
      NormMembersAt(r);
      SortKeepsElements(n, KeyLess);
      forall i | 0 <= i < |r| ensures NormMembers(r)[i] == r[i] {
        assert r[i] in multiset(n);
        var j :| 0 <= j < |ms| && n[j] == r[i];
        NormIsIdempotent(ms[j].value);
      }
      assert NormMembers(r) == r;
      KeysAreOrdered();
      SortSorts(n, KeyLess);
      SortOfSorted(r, KeyLess);
    case _ =>
  }

  /** In every object a key comes before the next ones, at the first character where they differ, or is the same. */
  ghost predicate KeysAscend(v: Json) {
    match v
    case Arr(items) => forall w :: w in items ==> KeysAscend(w)
    case Obj(ms) =>
      && (forall i, j :: 0 <= i < j < |ms| ==> ms[i].key == ms[j].key || Before(ms[i].key, ms[j].key))
      && (forall m :: m in ms ==> KeysAscend(m.value))
    case _ => true
  }

  lemma SortedKeysAscend(ms: seq<Member>)
    requires Sorted(ms, KeyLess)
    ensures forall i, j :: 0 <= i < j < |ms| ==> ms[i].key == ms[j].key || Before(ms[i].key, ms[j].key)
  {
    hide TextLess, Before;
    forall i, j | 0 <= i < j < |ms| ensures ms[i].key == ms[j].key || Before(ms[i].key, ms[j].key) {
      TextLessTotal(ms[i].key, ms[j].key);
      TextLessIsBefore(ms[i].key, ms[j].key);
    }
  }

  /** Members with one key keep their order. */
  lemma OneKeyKeepsOrder(ms: seq<Member>, key: string)
    ensures Filter((m: Member) => m.key == key, Sort(ms, KeyLess)) == Filter((m: Member) => m.key == key, ms)
  {
    forall a: Member, b: Member | a.key == key && b.key == key ensures !KeyLess(a, b) {
      if KeyLess(a, b) {
        TextLessAsymmetric(key, key);
      }
    }
    SortIsStable(ms, KeyLess, (m: Member) => m.key == key);
  }

  lemma {:induction false} NormAscends(v: Json)
    ensures KeysAscend(Norm(v))
    decreases v
  {
    hide Sort, KeyLess, Before, Sorted, WeakOrder;
    match v
    case Arr(items) =>
      NormItemsAt(items);
      forall w | w in NormItems(items) ensures KeysAscend(w) {
        var i :| 0 <= i < |items| && NormItems(items)[i] == w;
        NormAscends(items[i]);
      }
    case Obj(ms) =>
      NormMembersAt(ms);
      var (n, r) := (NormMembers(ms), Sort(NormMembers(ms), KeyLess));
      KeysAreOrdered();
      SortSorts(n, KeyLess);
      SortedKeysAscend(r);
      SortKeepsElements(n, KeyLess);
      forall m | m in r ensures KeysAscend(m.value) {
        assert m in multiset(n);
        var i :| 0 <= i < |ms| && n[i] == m;
        NormAscends(ms[i].value);
      }
    case _ =>
  }

  // ---- equal up to the order of object keys ----

  predicate DistinctKeys(ms: seq<Member>) {
    forall i, j :: 0 <= i < j < |ms| ==> ms[i].key != ms[j].key
  }

  /** No object in the value has two members with one key. */
  predicate Distinct(v: Json) {
    match v
    case Arr(items) => forall w :: w in items ==> Distinct(w)
    case Obj(ms) => DistinctKeys(ms) && forall m :: m in ms ==> Distinct(m.value)
    case _ => true
  }

  /** Equal up to the order in which the objects list their members. */
  ghost predicate Alike(v: Json, w: Json)
    decreases v
  {
    match v
    case Arr(items) =>
      w.Arr? && |items| == |w.items| && forall i :: 0 <= i < |items| ==> Alike(items[i], w.items[i])
    case Obj(ms) =>
      w.Obj? && |ms| == |w.members|
      && forall i :: 0 <= i < |ms| ==>
           exists j :: 0 <= j < |w.members| && w.members[j].key == ms[i].key && Alike(ms[i].value, w.members[j].value)
    case _ => v == w
  }

  /** Members with distinct keys, each found in the other list: one list rearranges the other. */
  lemma {:induction false} SameElements(a: seq<Member>, b: seq<Member>)
    requires DistinctKeys(a) && DistinctKeys(b) && |a| == |b| && forall m :: m in a ==> m in b
    ensures multiset(a) == multiset(b)
  {
    hide DistinctKeys;
    if |a| > 0 {
      assert a[0] in a;
      var k :| 0 <= k < |b| && b[k] == a[0];
      OthersStay(a, b, k);
      TakeOut(b, k);
      SameElements(a[1..], b[..k] + b[k + 1..]);
      assert a == [a[0]] + a[1..];
    }
  }

  lemma TakeOut(b: seq<Member>, k: nat)
    requires k < |b|
    ensures multiset(b) == multiset(b[..k] + b[k + 1..]) + multiset{b[k]}
  {
    assert b == b[..k] + [b[k]] + b[k + 1..];
  }

  lemma OthersStay(a: seq<Member>, b: seq<Member>, k: nat)
    requires DistinctKeys(a) && DistinctKeys(b) && 0 < |a| && k < |b| && b[k] == a[0]
    requires forall m :: m in a ==> m in b
    ensures DistinctKeys(a[1..]) && DistinctKeys(b[..k] + b[k + 1..])
    ensures forall m :: m in a[1..] ==> m in b[..k] + b[k + 1..]
  {
    var c := b[..k] + b[k + 1..];
    forall m | m in a[1..] ensures m in c {
      var i :| 1 <= i < |a| && a[i] == m;
      assert a[i] in a;
      var j :| 0 <= j < |b| && b[j] == m;
      assert c[if j < k then j else j - 1] == m;
    }
  }

  lemma KeysDecide(ms: seq<Member>)
    requires DistinctKeys(ms)
    ensures forall x, y :: x in ms && y in ms && x != y ==> KeyLess(x, y) || KeyLess(y, x)
  {
    forall x, y | x in ms && y in ms && x != y ensures KeyLess(x, y) || KeyLess(y, x) {
      var i :| 0 <= i < |ms| && ms[i] == x;
      var j :| 0 <= j < |ms| && ms[j] == y;
      TextLessTotal(x.key, y.key);
    }
  }

  lemma NormKeepsKeys(ms: seq<Member>)
    requires DistinctKeys(ms)
    ensures DistinctKeys(NormMembers(ms))
  {
    NormMembersAt(ms);
  }

  lemma {:induction false} AlikeMeansSameNorm(v: Json, w: Json)
    requires Distinct(v) && Distinct(w) && Alike(v, w)
    ensures Norm(v) == Norm(w)
    decreases v
  {
    hide DistinctKeys, KeyLess, NormMembers, NormItems, Sort, WeakOrder;
    match v
    case Arr(items) =>
      NormItemsAt(items);
      NormItemsAt(w.items);
      forall i | 0 <= i < |items| ensures NormItems(items)[i] == NormItems(w.items)[i] {
        assert items[i] in items && w.items[i] in w.items;
        AlikeMeansSameNorm(items[i], w.items[i]);
      }
      assert NormItems(items) == NormItems(w.items);
    case Obj(ms) =>
      forall i | 0 <= i < |ms|
        ensures Matched(ms[i], w.members)
      {
        var j :| 0 <= j < |w.members| && w.members[j].key == ms[i].key && Alike(ms[i].value, w.members[j].value);
        assert ms[i] in ms && w.members[j] in w.members;
        AlikeMeansSameNorm(ms[i].value, w.members[j].value);
      }
      SameMembers(ms, w.members);
    case _ =>
  }

  ghost predicate Matched(m: Member, ws: seq<Member>) {
    exists j :: 0 <= j < |ws| && ws[j].key == m.key && Norm(m.value) == Norm(ws[j].value)
  }

  lemma SameMembers(ms: seq<Member>, ws: seq<Member>)
    requires DistinctKeys(ms) && DistinctKeys(ws) && |ms| == |ws|
    requires forall i :: 0 <= i < |ms| ==> Matched(ms[i], ws)
    ensures Sort(NormMembers(ms), KeyLess) == Sort(NormMembers(ws), KeyLess)
  {
    hide DistinctKeys, KeyLess, NormMembers, Norm, Sort, WeakOrder;
    var (a, b) := (NormMembers(ms), NormMembers(ws));
    NormMembersAt(ms);
    NormMembersAt(ws);
    forall m | m in a ensures m in b {
      var i :| 0 <= i < |ms| && a[i] == m;
      var j :| 0 <= j < |ws| && ws[j].key == ms[i].key && Norm(ms[i].value) == Norm(ws[j].value);
      assert b[j] == m;
    }
    NormKeepsKeys(ms);
    NormKeepsKeys(ws);
    SameElements(a, b);
    KeysDecide(a);
    KeysAreOrdered();
    SortForgetsOrder(a, b, KeyLess);
  }

  lemma {:induction false} SameNormMeansAlike(v: Json, w: Json)
    requires Norm(v) == Norm(w)
    ensures Alike(v, w)
    decreases v
  {
    hide KeyLess, NormMembers, NormItems, Sort;
    match v
    case Arr(items) =>
      NormItemsAt(items);
      NormItemsAt(w.items);
      forall i | 0 <= i < |items| ensures Alike(items[i], w.items[i]) {
        assert NormItems(items)[i] == NormItems(w.items)[i];
        SameNormMeansAlike(items[i], w.items[i]);
      }
    case Obj(ms) =>
      var (a, b) := (NormMembers(ms), NormMembers(w.members));
      NormMembersAt(ms);
      NormMembersAt(w.members);
      SortKeepsElements(a, KeyLess);
      SortKeepsElements(b, KeyLess);
      assert multiset(a) == multiset(b);
      assert |ms| == |multiset(a)| == |multiset(b)| == |w.members|;
      forall i | 0 <= i < |ms|
        ensures exists j :: 0 <= j < |w.members| && w.members[j].key == ms[i].key
                            && Alike(ms[i].value, w.members[j].value)
      {
        assert a[i] in multiset(b);
        var j :| 0 <= j < |b| && b[j] == a[i];
        SameNormMeansAlike(ms[i].value, w.members[j].value);
      }
    case _ =>
  }

  /** The canonical text of a value. */
  function Canon(v: Json): string { Print(Norm(v)) }

  /** The canonical texts of two values are equal exactly when the values are, up to the order of
      members with different keys. */
  lemma CanonIsExact(v: Json, w: Json)
    requires Wf(v) && Wf(w)
    ensures Canon(v) == Canon(w) <==> Norm(v) == Norm(w)
    ensures Distinct(v) && Distinct(w) ==> (Canon(v) == Canon(w) <==> Alike(v, w))
  {
    NormIsWf(v);
    NormIsWf(w);
    if Canon(v) == Canon(w) {
      assert Canon(v) + "" == Canon(w) + "";
      PrintIsUnambiguous(Norm(v), Norm(w), "", "");
      SameNormMeansAlike(v, w);
    } else if Distinct(v) && Distinct(w) && Alike(v, w) {
      AlikeMeansSameNorm(v, w);
    }
  }

  // ---- the token stream ----

  datatype Token = TNull | TBool(b: bool) | TNum(t: string) | TStr(s: string) | OpenArr | CloseArr | OpenObj | CloseObj

  function Tokens(v: Json): seq<Token> {
    match v
    case Null => [TNull]
    case Bool(b) => [TBool(b)]
    case Num(t) => [TNum(t)]
    case Str(s) => [TStr(s)]
    case Arr(items) => [OpenArr] + (ItemTokens(items) + [CloseArr])
    case Obj(ms) => [OpenObj] + (MemberTokens(ms) + [CloseObj])
  }

  function ItemTokens(items: seq<Json>): seq<Token> {
    if |items| == 0 then [] else Tokens(items[0]) + ItemTokens(items[1..])
  }

  function MemberTokens(ms: seq<Member>): seq<Token> {
    if |ms| == 0 then [] else [TStr(ms[0].key)] + (Tokens(ms[0].value) + MemberTokens(ms[1..]))
  }

  /** The value at the head of the stream, and what follows it. */
  function Parse(t: seq<Token>): (r: Option<(Json, seq<Token>)>)
    ensures r.Some? ==> |r.value.1| < |t|
    decreases |t|, 0
  {
    if |t| == 0 then None
    else match t[0]
      case TNull => Some((Null, t[1..]))
      case TBool(b) => Some((Bool(b), t[1..]))
      case TNum(n) => Some((Num(n), t[1..]))
      case TStr(s) => Some((Str(s), t[1..]))
      case OpenArr => (match ParseItems(t[1..]) case Some(p) => Some((Arr(p.0), p.1)) case None => None)
      case OpenObj => (match ParseMembers(t[1..]) case Some(p) => Some((Obj(p.0), p.1)) case None => None)
      case _ => None
  }

  function ParseItems(t: seq<Token>): (r: Option<(seq<Json>, seq<Token>)>)
    ensures r.Some? ==> |r.value.1| < |t|
    decreases |t|, 1
  {
    if |t| == 0 then None
    else if t[0].CloseArr? then Some(([], t[1..]))
    else match Parse(t)
      case None => None
      case Some(p) =>
        match ParseItems(p.1)
        case None => None
        case Some(q) => Some(([p.0] + q.0, q.1))
  }

  function ParseMembers(t: seq<Token>): (r: Option<(seq<Member>, seq<Token>)>)
    ensures r.Some? ==> |r.value.1| < |t|
    decreases |t|, 1
  {
    if |t| == 0 then None
    else if t[0].CloseObj? then Some(([], t[1..]))
    else if !t[0].TStr? then None
    else match Parse(t[1..])
      case None => None
      case Some(p) =>
        match ParseMembers(p.1)
        case None => None
        case Some(q) => Some(([Member(t[0].s, p.0)] + q.0, q.1))
  }

  lemma {:induction false} ParseReadsBack(v: Json, rest: seq<Token>)
    ensures Parse(Tokens(v) + rest) == Some((v, rest))
    decreases v
  {
    hide ParseItems, ParseMembers, ItemTokens, MemberTokens;
    match v
    case Arr(items) =>
      assert (Tokens(v) + rest)[1..] == ItemTokens(items) + ([CloseArr] + rest);
      ItemsReadBack(items, rest);
    case Obj(ms) =>
      assert (Tokens(v) + rest)[1..] == MemberTokens(ms) + ([CloseObj] + rest);
      MembersReadBack(ms, rest);
    case _ => ScalarReadsBack(v, rest);
  }

  lemma ScalarReadsBack(v: Json, rest: seq<Token>)
    requires !v.Arr? && !v.Obj?
    ensures Parse(Tokens(v) + rest) == Some((v, rest))
  {
    hide ParseItems, ParseMembers, ItemTokens, MemberTokens;
    var t := Tokens(v) + rest;
    assert t[0] == Tokens(v)[0];
    assert t[1..] == rest;
  }

  lemma {:induction false} ItemsReadBack(items: seq<Json>, rest: seq<Token>)
    ensures ParseItems(ItemTokens(items) + ([CloseArr] + rest)) == Some((items, rest))
    decreases items
  {
    hide Parse, Tokens;
    var t := ItemTokens(items) + ([CloseArr] + rest);
    if |items| == 0 {
      assert t == [CloseArr] + rest && t[1..] == rest;
    } else {
      var more := ItemTokens(items[1..]) + ([CloseArr] + rest);
      assert t == Tokens(items[0]) + more;
      TokensHead(items[0]);
      ParseReadsBack(items[0], more);
      ItemsReadBack(items[1..], rest);
      assert items == [items[0]] + items[1..];
    }
  }

  lemma {:induction false} MembersReadBack(ms: seq<Member>, rest: seq<Token>)
    ensures ParseMembers(MemberTokens(ms) + ([CloseObj] + rest)) == Some((ms, rest))
    decreases ms
  {
    hide Parse, Tokens;
    var t := MemberTokens(ms) + ([CloseObj] + rest);
    if |ms| == 0 {
      assert t == [CloseObj] + rest && t[1..] == rest;
    } else {
      var more := MemberTokens(ms[1..]) + ([CloseObj] + rest);
      assert t == [TStr(ms[0].key)] + (Tokens(ms[0].value) + more);
      assert t[1..] == Tokens(ms[0].value) + more;
      ParseReadsBack(ms[0].value, more);
      MembersReadBack(ms[1..], rest);
      assert ms == [ms[0]] + ms[1..];
    }
  }

  lemma TokensHead(v: Json)
    ensures |Tokens(v)| > 0 && !Tokens(v)[0].CloseArr? && !Tokens(v)[0].CloseObj?
  {
  }

  lemma {:induction false} ParseIsSound(t: seq<Token>)
    ensures Parse(t).Some? ==> t == Tokens(Parse(t).value.0) + Parse(t).value.1
    decreases |t|, 0
  {
    hide ParseItems, ParseMembers, ItemTokens, MemberTokens;
    if Parse(t).Some? {
      var (v, rest) := (Parse(t).value.0, Parse(t).value.1);
      assert t == [t[0]] + t[1..];
      if v.Arr? {
        ItemsAreSound(t[1..]);
        assert t[1..] == ItemTokens(v.items) + ([CloseArr] + rest);
      } else if v.Obj? {
        MembersAreSound(t[1..]);
        assert t[1..] == MemberTokens(v.members) + ([CloseObj] + rest);
      }
    }
  }

  lemma {:induction false} ItemsAreSound(t: seq<Token>)
    ensures ParseItems(t).Some? ==> t == ItemTokens(ParseItems(t).value.0) + ([CloseArr] + ParseItems(t).value.1)
    decreases |t|, 1
  {
    hide Parse, Tokens;
    if ParseItems(t).Some? {
      if t[0].CloseArr? {
        assert t == [] + ([t[0]] + t[1..]);
      } else {
        var p := Parse(t).value;
        var q := ParseItems(p.1).value;
        ParseIsSound(t);
        ItemsAreSound(p.1);
        assert ([p.0] + q.0)[1..] == q.0;
        assert t == (Tokens(p.0) + ItemTokens(q.0)) + ([CloseArr] + q.1);
      }
    }
  }

  lemma {:induction false} MembersAreSound(t: seq<Token>)
    ensures ParseMembers(t).Some? ==> t == MemberTokens(ParseMembers(t).value.0) + ([CloseObj] + ParseMembers(t).value.1)
    decreases |t|, 1
  {
    hide Parse, Tokens;
    if ParseMembers(t).Some? {
      if t[0].CloseObj? {
        assert t == [] + ([t[0]] + t[1..]);
      } else {
        var p := Parse(t[1..]).value;
        var q := ParseMembers(p.1).value;
        ParseIsSound(t[1..]);
        MembersAreSound(p.1);
        assert ([Member(t[0].s, p.0)] + q.0)[1..] == q.0;
        assert t == [t[0]] + t[1..];
        assert t == ([TStr(t[0].s)] + (Tokens(p.0) + MemberTokens(q.0))) + ([CloseObj] + q.1);
      }
    }
  }

  /** What the whole reader answers for a token stream. */
  function CanonText(t: seq<Token>): Option<string> {
    match Parse(t)
    case Some(p) => if |p.1| == 0 then Some(Canon(p.0)) else None
    case None => None
  }

  /** The numbers of the stream are JSON numbers. */
  ghost predicate NumbersOk(t: seq<Token>) { forall i :: 0 <= i < |t| && t[i].TNum? ==> NumberText(t[i].t) }

  lemma {:induction false} ParsedIsWf(t: seq<Token>)
    requires NumbersOk(t) && Parse(t).Some?
    ensures Wf(Parse(t).value.0) && NumbersOk(Parse(t).value.1)
    decreases |t|, 0
  {
    hide NumberText;
    match t[0]
    case OpenArr => ParsedItemsAreWf(t[1..]);
    case OpenObj => ParsedMembersAreWf(t[1..]);
    case _ =>
  }

  lemma {:induction false} ParsedItemsAreWf(t: seq<Token>)
    requires NumbersOk(t) && ParseItems(t).Some?
    ensures (forall v :: v in ParseItems(t).value.0 ==> Wf(v)) && NumbersOk(ParseItems(t).value.1)
    decreases |t|, 1
  {
    hide NumberText, Parse;
    if !t[0].CloseArr? {
      ParsedIsWf(t);
      ParsedItemsAreWf(Parse(t).value.1);
    }
  }

  lemma {:induction false} ParsedMembersAreWf(t: seq<Token>)
    requires NumbersOk(t) && ParseMembers(t).Some?
    ensures (forall m :: m in ParseMembers(t).value.0 ==> Wf(m.value)) && NumbersOk(ParseMembers(t).value.1)
    decreases |t|, 1
  {
    hide NumberText, Parse;
    if !t[0].CloseObj? {
      ParsedIsWf(t[1..]);
      ParsedMembersAreWf(Parse(t[1..]).value.1);
    }
  }

  /** The canonical text is a JSON text: read by RFC 8259 it is the normal form of the value that was read from the
      stream, and nothing is left; and that has its keys in order. */
  lemma CanonReadsBack(t: seq<Token>)
    requires NumbersOk(t) && CanonText(t).Some?
    ensures Parse(t).Some?
    ensures var v := Parse(t).value.0;
            Read(CanonText(t).value) == Some((Norm(v), "")) && KeysAscend(Norm(v))
  {
    hide Parse, Norm, Read, Print, Wf, NumbersOk;
    ParsedIsWf(t);
    var v := Parse(t).value.0;
    NormIsWf(v);
    NormAscends(v);
    PrintReads(Norm(v), "");
    assert Print(Norm(v)) + "" == Print(Norm(v));
  }

  /** A stream is accepted exactly when it is the tokens of one value, and the answer is that value's
      canonical text: nothing is cut off, left over or read two ways. */
  lemma CanonTextReads(t: seq<Token>)
    ensures forall v :: t == Tokens(v) ==> CanonText(t) == Some(Canon(v))
    ensures CanonText(t).Some? ==> Parse(t).Some? && t == Tokens(Parse(t).value.0)
  {
    hide Parse, Tokens, Canon;
    forall v | t == Tokens(v) ensures CanonText(t) == Some(Canon(v)) {
      ParseReadsBack(v, []);
      assert Tokens(v) + [] == t;
    }
    ParseIsSound(t);
    if CanonText(t).Some? {
      assert Parse(t).value.1 == [];
      assert t == Tokens(Parse(t).value.0) + [];
    }
  }
}
