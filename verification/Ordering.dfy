/** Optional values, text order and the stable sort used by the planner and by the
    canonical printer. */
module Ordering {

  datatype Option<+T> = None | Some(value: T)

  /** Lexicographic order on text, the order of Go's string comparison. */
  predicate TextLess(a: string, b: string) {
    |b| > 0 && (|a| == 0 || a[0] < b[0] || (a[0] == b[0] && TextLess(a[1..], b[1..])))
  }

  /** The same by position: at the first place where the texts differ the character is less, or `a` ends there. */
  ghost predicate Before(a: string, b: string) {
    exists k :: 0 <= k <= |a| && k < |b| && a[..k] == b[..k] && (k == |a| || a[k] < b[k])
  }

  lemma {:induction false} TextLessIsBefore(a: string, b: string)
    ensures TextLess(a, b) <==> Before(a, b)
  {
    if |a| > 0 && |b| > 0 && a[0] == b[0] {
      var (x, y) := (a[1..], b[1..]);
      TextLessIsBefore(x, y);
      if Before(x, y) {
        var k :| 0 <= k <= |x| && k < |y| && x[..k] == y[..k] && (k == |x| || x[k] < y[k]);
        assert a[..k + 1] == [a[0]] + x[..k] && b[..k + 1] == [b[0]] + y[..k];
        assert k + 1 == |a| || a[k + 1] < b[k + 1];
      }
      if Before(a, b) {
        var k :| 0 <= k <= |a| && k < |b| && a[..k] == b[..k] && (k == |a| || a[k] < b[k]);
        assert k > 0 && x[..k - 1] == a[..k][1..] && y[..k - 1] == b[..k][1..];
        assert k - 1 == |x| || x[k - 1] < y[k - 1];
      }
    } else if |b| > 0 && (|a| == 0 || a[0] < b[0]) {
      assert a[..0] == b[..0];
    } else {
      SameHeads(a, b);
    }
  }

  lemma SameHeads(a: string, b: string)
    ensures forall k :: 0 < k <= |a| && k < |b| && a[..k] == b[..k] ==> a[0] == b[0]
  {
    forall k | 0 < k <= |a| && k < |b| && a[..k] == b[..k] ensures a[0] == b[0] {
      assert a[..k][0] == a[0] && b[..k][0] == b[0];
    }
  }

  lemma {:induction false} TextLessAsymmetric(a: string, b: string)
    requires TextLess(a, b)
    ensures !TextLess(b, a)
  {
    if |a| > 0 && a[0] == b[0] {
      TextLessAsymmetric(a[1..], b[1..]);
    }
  }

  lemma {:induction false} TextLessTotal(a: string, b: string)
    ensures TextLess(a, b) || TextLess(b, a) || a == b
  {
    if |a| > 0 && |b| > 0 && a[0] == b[0] {
      TextLessTotal(a[1..], b[1..]);
      assert a == [a[0]] + a[1..] && b == [b[0]] + b[1..];
    }
  }

  lemma {:induction false} TextLessTransitive(a: string, b: string, c: string)
    requires TextLess(a, b) && TextLess(b, c)
    ensures TextLess(a, c)
  {
    if |a| > 0 && a[0] == b[0] == c[0] {
      TextLessTransitive(a[1..], b[1..], c[1..]);
    }
  }

  /** `less` orders values the way a sort expects: never both ways, and "not after" composes. */
  ghost predicate WeakOrder<T(!new)>(less: (T, T) -> bool) {
    && (forall a, b :: less(a, b) ==> !less(b, a))
    && (forall a, b, c :: !less(a, b) && !less(b, c) ==> !less(a, c))
  }

  ghost predicate Sorted<T>(s: seq<T>, less: (T, T) -> bool) {
    forall i, j :: 0 <= i < j < |s| ==> !less(s[j], s[i])
  }

  function Insert<T>(x: T, s: seq<T>, less: (T, T) -> bool): seq<T> {
    if |s| == 0 then [x]
    else if less(s[0], x) then [s[0]] + Insert(x, s[1..], less)
    else [x] + s
  }

  /** The stable sort: among values that are not ordered either way the first one stays first. */
  function Sort<T>(s: seq<T>, less: (T, T) -> bool): seq<T> {
    if |s| == 0 then [] else Insert(s[0], Sort(s[1..], less), less)
  }

  lemma {:induction false} InsertKeepsElements<T>(x: T, s: seq<T>, less: (T, T) -> bool)
    ensures multiset(Insert(x, s, less)) == multiset{x} + multiset(s)
  {
    if |s| > 0 {
      assert s == [s[0]] + s[1..];
      if less(s[0], x) {
        InsertKeepsElements(x, s[1..], less);
      }
    }
  }

  lemma {:induction false} SortKeepsElements<T>(s: seq<T>, less: (T, T) -> bool)
    ensures multiset(Sort(s, less)) == multiset(s)
    ensures |Sort(s, less)| == |s|
  {
    if |s| > 0 {
      assert s == [s[0]] + s[1..];
      SortKeepsElements(s[1..], less);
      InsertKeepsElements(s[0], Sort(s[1..], less), less);
    }
    assert |Sort(s, less)| == |multiset(Sort(s, less))|;
    assert |s| == |multiset(s)|;
  }

  lemma {:induction false} InsertSorts<T(!new)>(x: T, s: seq<T>, less: (T, T) -> bool)
    requires WeakOrder(less) && Sorted(s, less)
    ensures Sorted(Insert(x, s, less), less)
  {
    if |s| > 0 && less(s[0], x) {
      InsertSorts(x, s[1..], less);
      var r := Insert(x, s[1..], less);
      InsertKeepsElements(x, s[1..], less);
      forall j | 0 <= j < |r| ensures !less(r[j], s[0]) {
        assert r[j] in multiset(r);
        if r[j] != x {
          assert r[j] in s[1..];
        }
      }
    } else if |s| > 0 {
      forall j | 0 <= j < |s| ensures !less(s[j], x) {
        if j > 0 {
          assert !less(s[j], s[0]);
        }
      }
    }
  }

  lemma {:induction false} SortSorts<T(!new)>(s: seq<T>, less: (T, T) -> bool)
    requires WeakOrder(less)
    ensures Sorted(Sort(s, less), less)
  {
    if |s| > 0 {
      SortSorts(s[1..], less);
      InsertSorts(s[0], Sort(s[1..], less), less);
    }
  }

  lemma {:induction false} SortOfSorted<T(!new)>(s: seq<T>, less: (T, T) -> bool)
    requires Sorted(s, less)
    ensures Sort(s, less) == s
  {
    if |s| > 0 {
      SortOfSorted(s[1..], less);
      assert s == [s[0]] + s[1..];
    }
  }

  lemma TailElements<T>(s: seq<T>)
    requires |s| > 0
    ensures multiset(s[1..]) == multiset(s) - multiset{s[0]}
    ensures s == [s[0]] + s[1..]
  {
    assert s == [s[0]] + s[1..];
  }

  lemma SortedHeads<T(!new)>(a: seq<T>, b: seq<T>, less: (T, T) -> bool)
    requires Sorted(a, less) && Sorted(b, less) && multiset(a) == multiset(b) && |a| > 0 && |b| > 0
    requires forall x, y :: x in a && y in a && x != y ==> less(x, y) || less(y, x)
    ensures a[0] == b[0]
  {
    assert a[0] in multiset(b) && b[0] in multiset(a);
    assert a[0] in b && b[0] in a;
  }

  /** Where `less` decides every pair of different values, a sorted arrangement is unique. */
  lemma {:induction false} SortedIsUnique<T(!new)>(a: seq<T>, b: seq<T>, less: (T, T) -> bool)
    requires Sorted(a, less) && Sorted(b, less) && multiset(a) == multiset(b)
    requires forall x, y :: x in a && y in a && x != y ==> less(x, y) || less(y, x)
    ensures a == b
  {
    assert |a| == |multiset(a)| && |b| == |multiset(b)|;
    if |a| > 0 {
      SortedHeads(a, b, less);
      TailElements(a);
      TailElements(b);
      SortedIsUnique(a[1..], b[1..], less);
    }
  }

  /** Sorting forgets the order in which the values were listed. */
  lemma {:induction false} SortForgetsOrder<T(!new)>(a: seq<T>, b: seq<T>, less: (T, T) -> bool)
    requires WeakOrder(less) && multiset(a) == multiset(b)
    requires forall x, y :: x in a && y in a && x != y ==> less(x, y) || less(y, x)
    ensures Sort(a, less) == Sort(b, less)
  {
    SortKeepsElements(a, less);
    SortKeepsElements(b, less);
    SortSorts(a, less);
    SortSorts(b, less);
    var sa := Sort(a, less);
    forall x | x in sa ensures x in a {
      assert x in multiset(sa);
    }
    SortedIsUnique(sa, Sort(b, less), less);
  }

  function Map<A, B>(f: A -> B, s: seq<A>): seq<B> {
    seq(|s|, i requires 0 <= i < |s| => f(s[i]))
  }

  lemma MapTakeOut<A, B>(f: A -> B, s: seq<A>, k: nat)
    requires k < |s|
    ensures multiset(Map(f, s)) == multiset(Map(f, s[..k] + s[k + 1..])) + multiset{f(s[k])}
    ensures multiset(s) == multiset(s[..k] + s[k + 1..]) + multiset{s[k]}
  {
    assert Map(f, s) == Map(f, s[..k]) + [f(s[k])] + Map(f, s[k + 1..]);
    assert Map(f, s[..k] + s[k + 1..]) == Map(f, s[..k]) + Map(f, s[k + 1..]);
    assert s == s[..k] + [s[k]] + s[k + 1..];
  }

  lemma SameWithout<T>(m: multiset<T>, n: multiset<T>, x: T)
    requires m + multiset{x} == n + multiset{x}
    ensures m == n
  {
    assert m == (m + multiset{x}) - multiset{x};
    assert n == (n + multiset{x}) - multiset{x};
  }

  /** Mapping a rearranged list gives a rearrangement of the mapped list. */
  lemma {:induction false} MapKeepsPermutation<A, B>(f: A -> B, a: seq<A>, b: seq<A>)
    requires multiset(a) == multiset(b)
    ensures multiset(Map(f, a)) == multiset(Map(f, b))
  {
    hide Map;
    assert |a| == |multiset(a)| && |b| == |multiset(b)|;
    if |a| == 0 {
      assert a == b;
    } else {
      assert a[0] in multiset(b);
      var k :| 0 <= k < |b| && b[k] == a[0];
      var (c, d) := (a[..0] + a[1..], b[..k] + b[k + 1..]);
      MapTakeOut(f, a, 0);
      MapTakeOut(f, b, k);
      SameWithout(multiset(c), multiset(d), a[0]);
      MapKeepsPermutation(f, c, d);
    }
  }

  function Filter<T>(keep: T -> bool, s: seq<T>): seq<T> {
    if |s| == 0 then []
    else Filter(keep, s[..|s| - 1]) + (if keep(s[|s| - 1]) then [s[|s| - 1]] else [])
  }

  lemma {:induction false} FilterElements<T>(keep: T -> bool, s: seq<T>)
    ensures var r := Filter(keep, s);
            && |r| <= |s|
            && (forall x :: x in r ==> x in s && keep(x))
            && (forall x :: x in s && keep(x) ==> x in r)
  {
    if |s| > 0 {
      FilterElements(keep, s[..|s| - 1]);
      assert s == s[..|s| - 1] + [s[|s| - 1]];
    }
  }

  lemma {:induction false} FilterConcat<T>(keep: T -> bool, a: seq<T>, b: seq<T>)
    ensures Filter(keep, a + b) == Filter(keep, a) + Filter(keep, b)
  {
    if |b| == 0 {
      assert a + b == a;
    } else {
      assert (a + b)[..|a + b| - 1] == a + b[..|b| - 1];
      FilterConcat(keep, a, b[..|b| - 1]);
    }
  }

  lemma FilterOne<T>(keep: T -> bool, x: T)
    ensures Filter(keep, [x]) == if keep(x) then [x] else []
  {
    assert [x][..0] == [];
  }

  lemma OneOfThemEmpty<T>(a: seq<T>, b: seq<T>, c: seq<T>)
    ensures a == [] || b == [] ==> a + (b + c) == b + (a + c)
  {
  }

  lemma {:induction false} InsertIsStable<T(!new)>(x: T, s: seq<T>, less: (T, T) -> bool, same: T -> bool)
    requires forall a, b :: same(a) && same(b) ==> !less(a, b)
    ensures Filter(same, Insert(x, s, less)) == Filter(same, [x] + s)
  {
    hide Filter;
    if |s| > 0 && less(s[0], x) {
      var (a, rest) := (s[0], s[1..]);
      InsertIsStable(x, rest, less, same);
      FilterConcat(same, [a], Insert(x, rest, less));
      FilterConcat(same, [x], rest);
      FilterConcat(same, [a], rest);
      FilterConcat(same, [x], s);
      FilterOne(same, a);
      FilterOne(same, x);
      assert s == [a] + rest;
      OneOfThemEmpty(Filter(same, [a]), Filter(same, [x]), Filter(same, rest));
    } else if |s| == 0 {
      assert [x] + s == [x];
    }
  }

  /** The sort is stable: values that are not ordered either way keep the order they had. */
  lemma {:induction false} SortIsStable<T(!new)>(s: seq<T>, less: (T, T) -> bool, same: T -> bool)
    requires forall a, b :: same(a) && same(b) ==> !less(a, b)
    ensures Filter(same, Sort(s, less)) == Filter(same, s)
  {
    hide Filter, Insert;
    if |s| > 0 {
      var (x, rest) := (s[0], s[1..]);
      SortIsStable(rest, less, same);
      InsertIsStable(x, Sort(rest, less), less, same);
      FilterConcat(same, [x], Sort(rest, less));
      FilterConcat(same, [x], rest);
      assert s == [x] + rest;
    } else {
      assert Sort(s, less) == s;
    }
  }

  ghost predicate Pairwise<T>(rel: (T, T) -> bool, s: seq<T>) {
    forall i, j :: 0 <= i < j < |s| ==> rel(s[i], s[j])
  }

  /** What holds of every pair in order still holds after filtering. */
  lemma {:induction false} FilterKeepsPairwise<T>(rel: (T, T) -> bool, keep: T -> bool, s: seq<T>)
    requires Pairwise(rel, s)
    ensures Pairwise(rel, Filter(keep, s))
  {
    if |s| > 0 {
      var (front, last) := (s[..|s| - 1], s[|s| - 1]);
      FilterKeepsPairwise(rel, keep, front);
      FilterElements(keep, front);
      var r := Filter(keep, front);
      forall i | 0 <= i < |r| ensures rel(r[i], last) {
        assert r[i] in front;
      }
    }
  }

  lemma FilterStep<T>(keep: T -> bool, s: seq<T>, n: nat)
    requires n < |s|
    ensures Filter(keep, s[..n + 1]) == Filter(keep, s[..n]) + (if keep(s[n]) then [s[n]] else [])
  {
    assert s[..n + 1][..n] == s[..n];
  }

  /** White space, as Unicode counts it. */
  predicate Space(c: char) {
    || c in " \t\n\r" || c == 0x0B as char || c == 0x0C as char || c == 0x85 as char || c == 0xA0 as char
    || c == 0x1680 as char || (0x2000 as char <= c <= 0x200A as char) || c == 0x2028 as char || c == 0x2029 as char
    || c == 0x202F as char || c == 0x205F as char || c == 0x3000 as char
  }
}
