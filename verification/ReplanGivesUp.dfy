/** The exact condition of the planner's fixpoint is not idle: an occupancy handed to the planner can be so
    full that it gives up on a video whose time it has passed, and a second plan moves videos again. No
    occupancy that a reservation builds is that full. */
module ReplanGivesUp {
  import opened Ordering
  import opened SlotCalendar
  import opened SlotOccupancy
  import opened Replan
  import opened ReplanFixpoint

  /** One slot a day; `m(k)` is the slot of day `k`. */
  ghost predicate Daily(cal: Calendar, m: int -> int) {
    && cal.Valid() && |cal.slots| == 1
    && (forall k :: cal.IsSlot(m(k)) && cal.Day(m(k)) == k)
    && (forall t :: cal.IsSlot(t) ==> t == m(cal.Day(t)))
    && (forall j, k :: j < k ==> m(j) < m(k))
  }

  predicate Busy(k: int) { 1 <= k <= 8002 && k != 2 }

  /** The slots of the first 8002 days are taken, except the second. */
  ghost predicate Full(occ: Occ, m: int -> int) {
    && (forall k :: Busy(k) ==> m(k) in occ.used)
    && (forall k :: m(k) in occ.used ==> Busy(k))
    && (forall k :: occ.Count(k) == if Busy(k) then 1 else 0)
  }

  lemma NextSlot(cal: Calendar, m: int -> int, x: int, k: int)
    requires Daily(cal, m) && m(k - 1) < x <= m(k)
    ensures cal.First(x) == m(k)
  {
    forall u | x <= u && cal.IsSlot(u) ensures m(k) <= u {
      assert u == m(cal.Day(u));
    }
    FirstIsUnique(cal, x, m(k));
  }

  lemma {:induction false} NthSlot(cal: Calendar, m: int -> int, k: int, n: nat)
    requires Daily(cal, m)
    ensures Nth(cal, m(k), n) == m(k + n)
  {
    hide Calendar.First, Calendar.IsSlot, Calendar.Day;
    if n > 0 {
      NthSlot(cal, m, k, n - 1);
      assert m(k + n - 1) < m(k + n);
      NextSlot(cal, m, m(k + n - 1) + 1, k + n);
    }
  }

  lemma FreeSlot(cal: Calendar, m: int -> int, occ: Occ, k: int)
    requires Daily(cal, m) && Full(occ, m)
    ensures occ.Free(cal, m(k)) <==> !Busy(k)
  {
    assert occ.Count(k) == if Busy(k) then 1 else 0;
  }

  lemma SecondIsNext(cal: Calendar, m: int -> int, occ: Occ)
    requires Daily(cal, m) && Full(occ, m)
    ensures occ.Alloc(cal, m(1)) == Some(m(2))
  {
    assert m(0) < m(1);
    NextSlot(cal, m, m(1), 1);
    NthSlot(cal, m, 1, 1);
    FreeSlot(cal, m, occ, 1);
    FreeSlot(cal, m, occ, 2);
    AllocIsLeast(occ, cal, m(1));
    var r := occ.Alloc(cal, m(1));
    var j := cal.Day(r.value);
    assert r.value == m(j) && (j < 1 ==> m(j) < m(1)) && (j > 2 ==> m(2) < m(j));
  }

  lemma ThenNothing(cal: Calendar, m: int -> int, occ: Occ)
    requires Daily(cal, m) && Full(occ, m)
    ensures occ.Take(cal, m(2)).Alloc(cal, m(2) + 1).None?
  {
    hide Calendar.First, Calendar.IsSlot, Calendar.Day, Nth, Occ.Search;
    var after := occ.Take(cal, m(2));
    assert m(2) < m(3);
    NextSlot(cal, m, m(2) + 1, 3);
    SearchStaysNear(after, cal, m(3), MAX_TRIES);
    AllocIsLeast(after, cal, m(2) + 1);
    var r := after.Alloc(cal, m(2) + 1);
    if r.Some? {
      var k: nat :| k < MAX_TRIES && r.value == Nth(cal, m(3), k);
      NthSlot(cal, m, 3, k);
      assert false;
    }
  }

  lemma SortTwo(x: Video, y: Video)
    ensures Sort([x, y], VideoLess) == if VideoLess(y, x) then [y, x] else [x, y]
  {
    assert [x, y][1..] == [y] && [y][1..] == [];
    assert Sort([y], VideoLess) == [y];
    assert Insert(x, [y], VideoLess) == if VideoLess(y, x) then [y] + Insert(x, [], VideoLess) else [x] + [y];
  }

  /** A video on the taken first slot moves to the second. */
  lemma MovesToSecond(p: Problem, m: int -> int)
    requires Daily(p.cal, m) && Full(p.occ, m) && p.minStart < m(1) && |p.vs| > 0 && p.vs[0].at == m(1)
    ensures p.D(0) == Moves(m(2))
    ensures p.St(1) == PlanState(p.occ.Take(p.cal, m(2)), m(2), Plan([p.MoveOf(0)], []))
  {
    FreeSlot(p.cal, m, p.occ, 1);
    assert m(0) < m(1);
    NextSlot(p.cal, m, m(1), 1);
    SecondIsNext(p.cal, m, p.occ);
    assert p.St(0) == PlanState(p.occ, p.minStart, Plan([], []));
    assert p.Bound(p.minStart, m(1)) == m(1);
  }

  lemma GivesUpOnNext(p: Problem, m: int -> int)
    requires Daily(p.cal, m) && Full(p.occ, m) && p.minStart < m(1) && |p.vs| == 2
    requires p.vs[0].at == m(1) && p.vs[1].at == m(1)
    ensures p.D(1) == GivesUp && p.St(2).plan.moves == [p.MoveOf(0)]
  {
    hide Calendar.First, Calendar.IsSlot, Calendar.Day, Occ.Free, Occ.Search, Occ.Alloc;
    MovesToSecond(p, m);
    assert m(0) < m(1) < m(2);
    NextSlot(p.cal, m, m(1), 1);
    ThenNothing(p.cal, m, p.occ);
    assert p.Bound(m(2), m(1)) == m(2) + 1;
    p.PlanStep(1);
  }

  /** Two videos on the same taken slot: the first plan moves one past the other's time and gives up on the
      other; carrying it out and planning again moves a video once more. */
  lemma FixpointFailsAfterGivingUp(cal: Calendar, m: int -> int, occ: Occ, minStart: int)
    requires Daily(cal, m) && Full(occ, m) && minStart < m(1)
    ensures var vids := [Video("a", "", m(1)), Video("b", "", m(1))];
            var p := PlanFor(cal, minStart, occ, vids);
            var q := PlanFor(cal, minStart, occ, CarriedOut(p.St(|p.vs|).plan, vids));
            && DistinctIds(vids) && !p.AllPlaced() && !GivesUpOnlyInOrder(p)
            && |q.vs| == 2 && q.St(2).plan.moves != []
  {
    hide Problem.St, Problem.Decide, Calendar.IsSlot, Calendar.Day;
    var (a, b) := (Video("a", "", m(1)), Video("b", "", m(1)));
    var p := PlanFor(cal, minStart, occ, [a, b]);
    SortTwo(a, b);
    GivesUpOnNext(p, m);
    MovesToSecond(p, m);
    assert m(1) < m(2);
    assert !GivesUpInOrder(p, 1) && p.D(1).GivesUp?;
    ReplanIsFixpoint(cal, minStart, occ, [a, b]);
  }

  function SlotOf(cal: Calendar): int -> int
    requires |cal.slots| > 0
  {
    k => cal.At(k, cal.slots[0].Offset())
  }

  lemma OneSlotIsDaily(cal: Calendar)
    requires cal.Valid() && |cal.slots| == 1
    ensures Daily(cal, SlotOf(cal))
  {
    forall k ensures cal.IsSlot(SlotOf(cal)(k)) && cal.Day(SlotOf(cal)(k)) == k {
      SlotAt(cal, k, 0);
    }
    forall t | cal.IsSlot(t) ensures t == SlotOf(cal)(cal.Day(t)) {
      var i := SlotIndex(cal, t);
    }
  }

  /** Every calendar with one slot a day has such an occupancy. */
  lemma FullExists(cal: Calendar) returns (occ: Occ)
    requires cal.Valid() && |cal.slots| == 1
    ensures Daily(cal, SlotOf(cal)) && Full(occ, SlotOf(cal))
  {
    OneSlotIsDaily(cal);
    var m := SlotOf(cal);
    occ := Occ(set k | 0 <= k <= 8002 && Busy(k) :: m(k), map k | 0 <= k <= 8002 && Busy(k) :: 1);
    forall k | m(k) in occ.used ensures Busy(k) {
      var j :| 0 <= j <= 8002 && Busy(j) && m(k) == m(j);
      assert cal.Day(m(k)) == k && cal.Day(m(j)) == j;
    }
  }
}
