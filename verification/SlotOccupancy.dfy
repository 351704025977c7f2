/** Which slots are taken, and the allocator that hands out the next free one. */
module SlotOccupancy {
  import opened Ordering
  import opened SlotCalendar

  const MAX_TRIES := 8000

  /** The value of an occupancy: taken instants, and videos per local day. */
  datatype Occ = Occ(used: set<int>, perDay: map<int, nat>) {

    function Count(day: int): nat { if day in perDay then perDay[day] else 0 }

    function Take(cal: Calendar, t: int): Occ {
      if t in used then this else TakeLocked(cal, t)
    }

    /** Counts even when the instant is already taken. */
    function TakeLocked(cal: Calendar, t: int): Occ {
      Occ(used + {t}, perDay[cal.Day(t) := Count(cal.Day(t)) + 1])
    }

    predicate Free(cal: Calendar, t: int) {
      cal.IsSlot(t) && t !in used && Count(cal.Day(t)) < |cal.slots|
    }

    /** The first free instant among `tries` grid instants from `t`. */
    function Search(cal: Calendar, t: int, tries: nat): Option<int>
      requires |cal.slots| > 0
      decreases tries, t
    {
      if tries == 0 then None
      else if Free(cal, t) then Some(t)
      else Search(cal, cal.First(t + 1), tries - 1)
    }

    function Alloc(cal: Calendar, notBefore: int): Option<int>
      requires |cal.slots| > 0
    {
      Search(cal, cal.First(notBefore), MAX_TRIES)
    }

    /** `t` is the least free slot at or after `notBefore`. */
    ghost predicate LeastFree(cal: Calendar, notBefore: int, t: int) {
      Free(cal, t) && notBefore <= t && forall u :: notBefore <= u < t ==> !Free(cal, u)
    }
  }

  lemma {:induction false} SearchIsLeast(occ: Occ, cal: Calendar, from: int, t: int, tries: nat)
    requires cal.Valid() && cal.IsFirst(from, t)
    ensures var r := occ.Search(cal, t, tries);
            && (r.Some? ==> occ.LeastFree(cal, from, r.value))
            && (r.None? ==> forall k :: 0 <= k < tries ==> !occ.Free(cal, Nth(cal, t, k)))
    decreases tries
  {
    hide Calendar.First, Calendar.IsSlot, Calendar.Day, Occ.Count, SlotHM.Offset;
    if tries > 0 && !occ.Free(cal, t) {
      var n := cal.First(t + 1);
      FirstIsFirst(cal, t + 1);
      SearchIsLeast(occ, cal, t + 1, n, tries - 1);
      forall k: nat | 0 < k < tries ensures Nth(cal, t, k) == Nth(cal, n, k - 1) {
        NthShift(cal, t, k - 1);
      }
    }
  }

  lemma {:induction false} NthShift(cal: Calendar, t: int, k: nat)
    requires cal.Valid()
    ensures Nth(cal, t, k + 1) == Nth(cal, cal.First(t + 1), k)
  {
    if k > 0 {
      NthShift(cal, t, k - 1);
    }
  }

  /** The search never looks beyond its number of tries. */
  lemma {:induction false} SearchStaysNear(occ: Occ, cal: Calendar, t: int, tries: nat)
    requires cal.Valid()
    ensures var r := occ.Search(cal, t, tries);
            r.Some? ==> exists k: nat :: k < tries && r.value == Nth(cal, t, k)
    decreases tries
  {
    if tries > 0 {
      if occ.Free(cal, t) {
        assert Nth(cal, t, 0) == t;
      } else {
        var n := cal.First(t + 1);
        SearchStaysNear(occ, cal, n, tries - 1);
        var r := occ.Search(cal, n, tries - 1);
        if r.Some? {
          var k: nat :| k < tries - 1 && r.value == Nth(cal, n, k);
          NthShift(cal, t, k);
        }
      }
    }
  }

  /** The allocator gives the least free slot at or after its bound; it gives up only when
      the next 8000 grid slots are all unavailable. */
  lemma AllocIsLeast(occ: Occ, cal: Calendar, notBefore: int)
    requires cal.Valid()
    ensures var r := occ.Alloc(cal, notBefore);
            && (r.Some? ==> occ.LeastFree(cal, notBefore, r.value))
            && (r.None? ==> forall k :: 0 <= k < MAX_TRIES ==>
                                          !occ.Free(cal, Nth(cal, cal.First(notBefore), k)))
  {
    FirstIsFirst(cal, notBefore);
    SearchIsLeast(occ, cal, notBefore, cal.First(notBefore), MAX_TRIES);
  }

  // ---- the pigeonhole bound ----

  /** How many recorded takes fall on a day. */
  function OnDay(cal: Calendar, log: seq<int>, day: int): nat {
    if |log| == 0 then 0
    else OnDay(cal, log[..|log| - 1], day) + (if cal.Day(log[|log| - 1]) == day then 1 else 0)
  }

  /** The occupancy is exactly what the takes in `log` produced. */
  ghost predicate Records(cal: Calendar, occ: Occ, log: seq<int>) {
    && (forall t :: t in occ.used <==> t in log)
    && (forall d :: occ.Count(d) == OnDay(cal, log, d))
  }

  lemma TakeRecords(cal: Calendar, occ: Occ, log: seq<int>, t: int)
    requires Records(cal, occ, log)
    ensures Records(cal, occ.TakeLocked(cal, t), log + [t])
    ensures t in occ.used ==> occ.Take(cal, t) == occ
    ensures t !in occ.used ==> Records(cal, occ.Take(cal, t), log + [t])
  {
    assert (log + [t])[..|log|] == log;
    forall d ensures occ.TakeLocked(cal, t).Count(d) == OnDay(cal, log + [t], d) {
      assert occ.Count(d) == OnDay(cal, log, d);
    }
  }

  function NotOnDay(cal: Calendar, log: seq<int>, day: int): seq<int> {
    if |log| == 0 then []
    else NotOnDay(cal, log[..|log| - 1], day)
         + (if cal.Day(log[|log| - 1]) == day then [] else [log[|log| - 1]])
  }

  lemma {:induction false} SplitByDay(cal: Calendar, log: seq<int>, day: int)
    ensures |NotOnDay(cal, log, day)| + OnDay(cal, log, day) == |log|
    ensures forall t :: t in NotOnDay(cal, log, day) <==> t in log && cal.Day(t) != day
  {
    if |log| > 0 {
      SplitByDay(cal, log[..|log| - 1], day);
      assert log == log[..|log| - 1] + [log[|log| - 1]];
    }
  }

  lemma {:induction false} OtherDaysStay(cal: Calendar, log: seq<int>, day: int, d: int)
    requires d != day
    ensures OnDay(cal, NotOnDay(cal, log, day), d) == OnDay(cal, log, d)
  {
    if |log| > 0 {
      var (front, last) := (log[..|log| - 1], log[|log| - 1]);
      OtherDaysStay(cal, front, day, d);
      var rest := NotOnDay(cal, front, day);
      assert (rest + [last])[..|rest|] == rest;
      assert rest + [] == rest;
    }
  }

  ghost function TakenOn(cal: Calendar, log: seq<int>, day: int): set<int> {
    set t | t in log && cal.Day(t) == day
  }

  lemma {:induction false} TakesOnDay(cal: Calendar, log: seq<int>, day: int)
    ensures |TakenOn(cal, log, day)| <= OnDay(cal, log, day)
  {
    if |log| == 0 {
      assert TakenOn(cal, log, day) == {};
    } else {
      var (front, last) := (log[..|log| - 1], log[|log| - 1]);
      TakesOnDay(cal, front, day);
      assert log == front + [last];
      var s := TakenOn(cal, front, day);
      assert TakenOn(cal, log, day) == if cal.Day(last) == day then s + {last} else s;
    }
  }

  lemma SubsetSize<T>(a: set<T>, b: set<T>)
    requires a <= b
    ensures |a| <= |b|
  {
    assert b == a + (b - a);
  }

  ghost predicate Blocked(cal: Calendar, log: seq<int>, t: int) {
    cal.IsSlot(t) && (t in log || OnDay(cal, log, cal.Day(t)) >= |cal.slots|)
  }

  lemma BlockedOnDay(cal: Calendar, log: seq<int>, slots: set<int>, d: int)
    requires cal.Valid()
    requires forall t :: t in slots ==> Blocked(cal, log, t) && cal.Day(t) == d
    ensures |slots| <= OnDay(cal, log, d)
  {
    if OnDay(cal, log, d) >= |cal.slots| {
      SlotsOnDay(cal, d);
      forall t | t in slots ensures t in SlotsOn(cal, d) {
        assert Blocked(cal, log, t);
      }
      SubsetSize(slots, SlotsOn(cal, d));
    } else {
      SlotsAllTaken(cal, log, slots, d);
    }
  }

  lemma SlotsAllTaken(cal: Calendar, log: seq<int>, slots: set<int>, d: int)
    requires forall t :: t in slots ==> t in log && cal.Day(t) == d
    ensures |slots| <= OnDay(cal, log, d)
  {
    TakesOnDay(cal, log, d);
    forall t | t in slots ensures t in TakenOn(cal, log, d) {}
    SubsetSize(slots, TakenOn(cal, log, d));
  }

  lemma BlockedElsewhere(cal: Calendar, log: seq<int>, t: int, d: int)
    requires Blocked(cal, log, t) && cal.Day(t) != d
    ensures Blocked(cal, NotOnDay(cal, log, d), t)
  {
    SplitByDay(cal, log, d);
    OtherDaysStay(cal, log, d, cal.Day(t));
  }

  /** Unavailable grid slots never outnumber the recorded takes: a taken slot is paid for by
      its own take, and a full day's slots by the takes that filled the day. */
  lemma {:induction false} BlockedAtMostTakes(cal: Calendar, log: seq<int>, slots: set<int>)
    requires cal.Valid() && forall t :: t in slots ==> Blocked(cal, log, t)
    ensures |slots| <= |log|
    decreases |slots|
  {
    if s :| s in slots {
      var d := cal.Day(s);
      var mine := set t | t in slots && cal.Day(t) == d;
      var rest := slots - mine;
      assert s in mine;
      assert slots == mine + rest && |mine + rest| == |mine| + |rest|;
      BlockedOnDay(cal, log, mine, d);
      forall t | t in rest ensures Blocked(cal, NotOnDay(cal, log, d), t) {
        BlockedElsewhere(cal, log, t, d);
      }
      BlockedAtMostTakes(cal, NotOnDay(cal, log, d), rest);
      SplitByDay(cal, log, d);
    } else {
      assert slots == {};
    }
  }

  ghost function NthSlots(cal: Calendar, t: int, n: nat): set<int>
    requires |cal.slots| > 0
  {
    set k: nat | k < n :: Nth(cal, t, k)
  }

  lemma {:induction false} NthSlotsSize(cal: Calendar, t: int, n: nat)
    requires cal.Valid() && cal.IsSlot(t)
    ensures |NthSlots(cal, t, n)| == n
  {
    hide Calendar.First, Calendar.IsSlot, Nth;
    if n > 0 {
      NthSlotsSize(cal, t, n - 1);
      var last := Nth(cal, t, n - 1);
      forall k: nat | k < n - 1 ensures Nth(cal, t, k) < last {
        NthAscends(cal, t, k, n - 1);
      }
      assert last !in NthSlots(cal, t, n - 1);
      forall u | u in NthSlots(cal, t, n) ensures u in NthSlots(cal, t, n - 1) + {last} {
        var k: nat :| k < n && u == Nth(cal, t, k);
        assert k < n - 1 || k == n - 1;
      }
      assert NthSlots(cal, t, n) == NthSlots(cal, t, n - 1) + {last};
    } else {
      assert NthSlots(cal, t, n) == {};
    }
  }

  /** With fewer than 8000 recorded takes the allocator always finds a slot, however they are
      spread over the calendar. */
  lemma AllocSucceeds(cal: Calendar, occ: Occ, log: seq<int>, notBefore: int)
    requires cal.Valid() && Records(cal, occ, log) && |log| < MAX_TRIES
    ensures occ.Alloc(cal, notBefore).Some?
  {
    if occ.Alloc(cal, notBefore).None? {
      AllocIsLeast(occ, cal, notBefore);
      var t := cal.First(notBefore);
      FirstIsFirst(cal, notBefore);
      NthSlotsSize(cal, t, MAX_TRIES);
      forall s | s in NthSlots(cal, t, MAX_TRIES) ensures Blocked(cal, log, s) {
        var k: nat :| k < MAX_TRIES && s == Nth(cal, t, k);
        NthAscends(cal, t, 0, k);
        assert !occ.Free(cal, Nth(cal, t, k));
        assert occ.Count(cal.Day(s)) == OnDay(cal, log, cal.Day(s));
      }
      BlockedAtMostTakes(cal, log, NthSlots(cal, t, MAX_TRIES));
      assert false;
    }
  }

  // ---- the object ----

  class SlotOccupancy {
    const cal: Calendar
    var used: set<int>
    var perDay: map<int, nat>

    ghost function State(): Occ
      reads this
    {
      Occ(used, perDay)
    }

    constructor (cal: Calendar)
      ensures this.cal == cal && State() == Occ({}, map[])
    {
      this.cal := cal;
      used := {};
      perDay := map[];
    }

    method Take(t: int)
      modifies this
      ensures State() == old(State()).Take(cal, t)
    {
      if t in used {
        return;
      }
      TakeLocked(t);
    }

    method TakeLocked(t: int)
      modifies this
      ensures State() == old(State()).TakeLocked(cal, t)
    {
      used := used + {t};
      var d := cal.Day(t);
      perDay := perDay[d := (if d in perDay then perDay[d] else 0) + 1];
    }

    predicate IsFree(t: int)
      requires cal.Valid()
      reads this
      ensures IsFree(t) <==> State().Free(cal, t)
    {
      ClockIsGrid(cal, t);
      var d := cal.Day(t);
      cal.ClockOnSlot(t) && t !in used && (if d in perDay then perDay[d] else 0) < |cal.slots|
    }

    /** Takes and returns the least free slot at or after `notBefore`; takes nothing when the
        next 8000 grid slots are all unavailable. */
    method Allocate(notBefore: int) returns (r: Option<int>)
      requires cal.Valid()
      modifies this
      ensures r == old(State()).Alloc(cal, notBefore)
      ensures r.Some? ==> old(State()).LeastFree(cal, notBefore, r.value)
                          && State() == old(State()).Take(cal, r.value)
      ensures r.None? ==> State() == old(State())
                          && forall k :: 0 <= k < MAX_TRIES ==>
                                           !old(State()).Free(cal, Nth(cal, cal.First(notBefore), k))
    {
      hide Calendar.FirstOnDay, Calendar.IsSlot, Calendar.Day, Nth;
      ghost var occ := State();
      AllocIsLeast(occ, cal, notBefore);
      var first := FirstAtOrAfter(cal, notBefore);
      var t := first.value;
      var i := MAX_TRIES;
      while i > 0
        invariant State() == occ
        invariant i >= 0 && occ.Alloc(cal, notBefore) == occ.Search(cal, t, i)
      {
        if IsFree(t) {
          Take(t);
          return Some(t);
        }
        first := FirstAtOrAfter(cal, t + 1);
        t := first.value;
        i := i - 1;
      }
      return None;
    }
  }
}
