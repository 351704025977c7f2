/** The publishing grid: fixed times of day in a zone without daylight saving. Instants are
    whole seconds since the epoch. */
module SlotCalendar {
  import opened Ordering

  const SEARCH_DAYS := 4000

  datatype SlotHM = SlotHM(h: int, m: int) {
    function Offset(): int { h * 3600 + m * 60 }
  }

  datatype Calendar = Calendar(zone: int, slots: seq<SlotHM>) {

    /** At least one slot, all within a day, ascending and without repetition. */
    ghost predicate Valid() {
      && |slots| > 0
      && (forall i :: 0 <= i < |slots| ==> 0 <= slots[i].h < 24 && 0 <= slots[i].m < 60)
      && (forall i, j :: 0 <= i < j < |slots| ==> slots[i].Offset() < slots[j].Offset())
    }

    function Day(t: int): int { (t + zone) / 86400 }

    function SecondOfDay(t: int): int { (t + zone) % 86400 }

    function At(day: int, offset: int): int { day * 86400 + offset - zone }

    /** On the grid: one of the slots of the instant's own local day. */
    predicate IsSlot(t: int) {
      exists i :: 0 <= i < |slots| && t == At(Day(t), slots[i].Offset())
    }

    /** On the grid, read off the local clock: whole minute, and hour and minute of some slot. */
    predicate ClockOnSlot(t: int) {
      var s := SecondOfDay(t);
      s % 60 == 0 && SlotHM(s / 3600, s % 3600 / 60) in slots
    }

    /** `r` is the first grid instant at or after `x`. */
    ghost predicate IsFirst(x: int, r: int) {
      IsSlot(r) && x <= r && forall u :: x <= u < r ==> !IsSlot(u)
    }

    function FirstOnDay(day: int, i: nat, x: int): int
      requires |slots| > 0 && i <= |slots|
      decreases |slots| - i
    {
      if i == |slots| then At(day + 1, slots[0].Offset())
      else if x <= At(day, slots[i].Offset()) then At(day, slots[i].Offset())
      else FirstOnDay(day, i + 1, x)
    }

    /** The first grid instant at or after `x`. */
    function First(x: int): int
      requires |slots| > 0
    {
      FirstOnDay(Day(x), 0, x)
    }
  }

  lemma HourAndMinute(h: int, m: int)
    requires 0 <= h < 24 && 0 <= m < 60
    ensures var o := h * 3600 + m * 60;
            0 <= o < 86400 && o / 3600 == h && o % 3600 / 60 == m && o % 60 == 0
  {
    var o := h * 3600 + m * 60;
    assert o / 3600 == h;
    assert o % 3600 == m * 60;
    assert o == 60 * (h * 60 + m);
  }

  lemma DayOfAt(cal: Calendar, day: int, o: int)
    requires 0 <= o < 86400
    ensures cal.Day(cal.At(day, o)) == day
  {
    assert cal.At(day, o) + cal.zone == day * 86400 + o;
  }

  /** The clock reading and the grid agree. */
  lemma ClockIsGrid(cal: Calendar, t: int)
    requires cal.Valid()
    ensures cal.ClockOnSlot(t) <==> cal.IsSlot(t)
  {
    hide Calendar.Day, Calendar.SecondOfDay, Calendar.Valid;
    var s := cal.SecondOfDay(t);
    TimeParts(cal, t);
    if cal.ClockOnSlot(t) {
      var i :| 0 <= i < |cal.slots| && cal.slots[i] == SlotHM(s / 3600, s % 3600 / 60);
      WholeMinutes(s);
      assert t == cal.At(cal.Day(t), cal.slots[i].Offset());
    }
    if cal.IsSlot(t) {
      var i := SlotIndex(cal, t);
      SlotInRange(cal, i);
      HourAndMinute(cal.slots[i].h, cal.slots[i].m);
      assert s == cal.slots[i].Offset();
      assert SlotHM(s / 3600, s % 3600 / 60) == cal.slots[i];
    }
  }

  lemma TimeParts(cal: Calendar, t: int)
    ensures 0 <= cal.SecondOfDay(t) < 86400 && t == cal.At(cal.Day(t), cal.SecondOfDay(t))
  {
  }

  lemma WholeMinutes(s: int)
    requires s >= 0 && s % 60 == 0
    ensures s == s / 3600 * 3600 + s % 3600 / 60 * 60
  {
    assert s % 3600 == s - s / 3600 * 3600;
    assert s == s / 60 * 60;
    assert s % 3600 == 60 * (s / 60 - 60 * (s / 3600));
  }

  lemma SlotInRange(cal: Calendar, i: nat)
    requires cal.Valid() && i < |cal.slots|
    ensures 0 <= cal.slots[i].h < 24 && 0 <= cal.slots[i].m < 60
  {
  }

  lemma SlotAt(cal: Calendar, day: int, i: nat)
    requires cal.Valid() && i < |cal.slots|
    ensures cal.IsSlot(cal.At(day, cal.slots[i].Offset()))
    ensures cal.Day(cal.At(day, cal.slots[i].Offset())) == day
  {
    var o := cal.slots[i].Offset();
    assert 0 <= o < 86400;
    DayOfAt(cal, day, o);
  }

  /** A grid instant is one of the slot offsets of its own day. */
  lemma SlotIndex(cal: Calendar, t: int) returns (i: nat)
    requires cal.Valid() && cal.IsSlot(t)
    ensures i < |cal.slots| && t == cal.At(cal.Day(t), cal.slots[i].Offset())
  {
    i :| 0 <= i < |cal.slots| && t == cal.At(cal.Day(t), cal.slots[i].Offset());
  }

  lemma NoEarlierSlot(cal: Calendar, d: int, i: nat, x: int, u: int)
    requires cal.Valid() && i <= |cal.slots| && cal.IsSlot(u) && x <= u && d <= cal.Day(u)
    requires forall k :: 0 <= k < i ==> cal.At(d, cal.slots[k].Offset()) < x
    requires i < |cal.slots| ==> x <= cal.At(d, cal.slots[i].Offset())
    ensures cal.FirstOnDay(d, i, x) <= u
  {
    var k := SlotIndex(cal, u);
    var day, o := cal.Day(u), cal.slots[k].Offset();
    assert 0 <= o < 86400 && 0 <= cal.slots[0].Offset() <= o;
    if i < |cal.slots| {
      assert k < i ==> d < day;
      assert i <= k ==> cal.slots[i].Offset() <= o;
      assert cal.slots[i].Offset() < 86400;
    } else {
      assert d < day;
    }
  }

  lemma {:induction false} FirstOnDayIsFirst(cal: Calendar, d: int, i: nat, x: int)
    requires cal.Valid() && i <= |cal.slots| && x <= cal.At(d + 1, 0)
    requires forall u :: x <= u ==> d <= cal.Day(u)
    requires forall k :: 0 <= k < i ==> cal.At(d, cal.slots[k].Offset()) < x
    ensures cal.IsFirst(x, cal.FirstOnDay(d, i, x))
    decreases |cal.slots| - i
  {
    if i < |cal.slots| && cal.At(d, cal.slots[i].Offset()) < x {
      FirstOnDayIsFirst(cal, d, i + 1, x);
    } else {
      SlotAt(cal, if i == |cal.slots| then d + 1 else d, if i == |cal.slots| then 0 else i);
      forall u | x <= u && cal.IsSlot(u) ensures cal.FirstOnDay(d, i, x) <= u {
        NoEarlierSlot(cal, d, i, x, u);
      }
    }
  }

  lemma DayBounds(cal: Calendar, x: int)
    ensures cal.At(cal.Day(x), 0) <= x < cal.At(cal.Day(x) + 1, 0)
    ensures forall u :: x <= u ==> cal.Day(x) <= cal.Day(u)
  {
  }

  /** `First` is the least grid instant at or after its argument. */
  lemma FirstIsFirst(cal: Calendar, x: int)
    requires cal.Valid()
    ensures cal.IsFirst(x, cal.First(x))
  {
    DayBounds(cal, x);
    FirstOnDayIsFirst(cal, cal.Day(x), 0, x);
  }

  lemma FirstIsUnique(cal: Calendar, x: int, r: int)
    requires cal.Valid() && cal.IsFirst(x, r)
    ensures r == cal.First(x)
  {
    FirstIsFirst(cal, x);
  }

  /** The day-by-day, slot-by-slot search. It always answers, within two days, and answers
      with the least grid instant that is not before `x`. */
  method FirstAtOrAfter(cal: Calendar, x: int) returns (r: Option<int>)
    requires cal.Valid()
    ensures r.Some? && cal.IsFirst(x, r.value) && r.value == cal.First(x)
  {
    var d := cal.Day(x);
    for off := 0 to SEARCH_DAYS
      invariant off <= 1
      invariant off == 1 ==> forall k :: 0 <= k < |cal.slots| ==> cal.At(d, cal.slots[k].Offset()) < x
    {
      for i := 0 to |cal.slots|
        invariant off == 1 ==> i == 0
        invariant forall k :: 0 <= k < i ==> cal.At(d + off, cal.slots[k].Offset()) < x
      {
        var t := cal.At(d + off, cal.slots[i].Offset());
        if x <= t {
          DayBounds(cal, x);
          FirstOnDayIsFirst(cal, d, if off == 0 then i else |cal.slots|, x);
          FirstIsUnique(cal, x, t);
          return Some(t);
        }
      }
    }
    assert false;
    return None;
  }

  /** The grid instants of one local day. */
  ghost function SlotsOn(cal: Calendar, day: int): set<int> {
    set i | 0 <= i < |cal.slots| :: cal.At(day, cal.slots[i].Offset())
  }

  lemma {:induction false} AtMostOnePerSlot(cal: Calendar, day: int, n: nat)
    requires n <= |cal.slots|
    ensures |set i | 0 <= i < n :: cal.At(day, cal.slots[i].Offset())| <= n
  {
    if n > 0 {
      AtMostOnePerSlot(cal, day, n - 1);
      assert (set i | 0 <= i < n :: cal.At(day, cal.slots[i].Offset()))
          == (set i | 0 <= i < n - 1 :: cal.At(day, cal.slots[i].Offset()))
             + {cal.At(day, cal.slots[n - 1].Offset())};
    }
  }

  lemma SlotsOnDay(cal: Calendar, day: int)
    requires cal.Valid()
    ensures |SlotsOn(cal, day)| <= |cal.slots|
    ensures forall t :: cal.IsSlot(t) && cal.Day(t) == day ==> t in SlotsOn(cal, day)
  {
    AtMostOnePerSlot(cal, day, |cal.slots|);
    forall t | cal.IsSlot(t) && cal.Day(t) == day ensures t in SlotsOn(cal, day) {
      var i := SlotIndex(cal, t);
    }
  }

  /** Slots are whole minutes. */
  lemma MinutesApart(a: SlotHM, b: SlotHM)
    requires a.Offset() < b.Offset()
    ensures a.Offset() + 60 <= b.Offset()
  {
    assert a.Offset() == 60 * (a.h * 60 + a.m) && b.Offset() == 60 * (b.h * 60 + b.m);
  }

  lemma SlotsWithinDay(cal: Calendar, i: nat)
    requires cal.Valid() && i < |cal.slots|
    ensures 0 <= cal.slots[i].Offset() < 86400
    ensures i > 0 ==> cal.slots[i - 1].Offset() < cal.slots[i].Offset()
  {
  }

  /** So a day has at most 1440 of them. */
  lemma {:induction false} SlotsAreMinutes(cal: Calendar, i: nat)
    requires cal.Valid() && i < |cal.slots|
    ensures 60 * i <= cal.slots[i].Offset() < 86400
  {
    hide Calendar.Valid, SlotHM.Offset;
    SlotsWithinDay(cal, i);
    if i > 0 {
      SlotsAreMinutes(cal, i - 1);
      MinutesApart(cal.slots[i - 1], cal.slots[i]);
    }
  }

  lemma AtMost1440Slots(cal: Calendar)
    requires cal.Valid()
    ensures |cal.slots| <= 1440
  {
    SlotsAreMinutes(cal, |cal.slots| - 1);
  }

  /** The `k`-th grid instant from `t`, itself a grid instant. */
  function Nth(cal: Calendar, t: int, k: nat): int
    requires |cal.slots| > 0
  {
    if k == 0 then t else cal.First(Nth(cal, t, k - 1) + 1)
  }

  lemma {:induction false} NthAscends(cal: Calendar, t: int, j: nat, k: nat)
    requires cal.Valid() && cal.IsSlot(t) && j <= k
    ensures cal.IsSlot(Nth(cal, t, k))
    ensures j < k ==> Nth(cal, t, j) < Nth(cal, t, k)
  {
    hide Calendar.First, Calendar.IsSlot, SlotHM.Offset;
    if k > 0 {
      FirstIsFirst(cal, Nth(cal, t, k - 1) + 1);
      if j < k {
        NthAscends(cal, t, j, k - 1);
      }
    }
  }
}
