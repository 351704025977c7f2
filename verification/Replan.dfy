/** The reconciliation planner: gives every scheduled video of the channel its own slot,
    keeping the chronological order and never advancing a video. */
module Replan {
  import opened Ordering
  import opened SlotCalendar
  import opened SlotOccupancy

  datatype Video = Video(id: string, title: string, at: int)

  datatype Move = Move(videoId: string, title: string, from: int, to: int)

  datatype Plan = Plan(moves: seq<Move>, kept: seq<Video>)

  /** Chronological, ties broken by video ID. */
  predicate VideoLess(a: Video, b: Video) {
    a.at < b.at || (a.at == b.at && TextLess(a.id, b.id))
  }

  lemma VideoOrder()
    ensures WeakOrder(VideoLess)
    ensures forall a: Video, b: Video :: a.id != b.id ==> VideoLess(a, b) || VideoLess(b, a)
  {
    forall a, b | VideoLess(a, b) ensures !VideoLess(b, a) {
      if a.at == b.at {
        TextLessAsymmetric(a.id, b.id);
      }
    }
    forall a: Video, b: Video | a.id != b.id ensures VideoLess(a, b) || VideoLess(b, a) {
      TextLessTotal(a.id, b.id);
    }
    forall a, b, c | !VideoLess(a, b) && !VideoLess(b, c) ensures !VideoLess(a, c) {
      if a.at == b.at == c.at {
        TextLessTotal(a.id, b.id);
        TextLessTotal(b.id, c.id);
        if TextLess(c.id, b.id) && TextLess(b.id, a.id) {
          TextLessTransitive(c.id, b.id, a.id);
          TextLessAsymmetric(c.id, a.id);
        } else if TextLess(a.id, c.id) {
          TextLessAsymmetric(a.id, c.id);
        }
      }
    }
  }

  /** What the planner does with one video. */
  datatype Decision =
    | Locked          // publishes too soon to be touched
    | Stays           // already alone on a free slot after the previous video
    | Moves(to: int)  // goes to the next free slot
    | GivesUp         // no slot found, left unchanged
  {
    predicate Placed() { Stays? || Moves? }
  }

  datatype PlanState = PlanState(occ: Occ, floor: int, plan: Plan)

  /** One planning problem: the videos in planning order. */
  datatype Problem = Problem(cal: Calendar, minStart: int, occ: Occ, vs: seq<Video>) {

    ghost predicate Ready() { cal.Valid() && Sorted(vs, VideoLess) }

    predicate IsLocked(i: nat)
      requires i < |vs|
    {
      vs[i].at <= minStart
    }

    function Bound(floor: int, at: int): int
      requires |cal.slots| > 0
    {
      var first := cal.First(at);
      if first <= floor then floor + 1 else first
    }

    function Decide(occ: Occ, floor: int, v: Video): Decision
      requires |cal.slots| > 0
    {
      if v.at <= minStart then Locked
      else if floor < v.at && occ.Free(cal, v.at) then Stays
      else match occ.Alloc(cal, Bound(floor, v.at))
           case None => GivesUp
           case Some(t) => Moves(t)
    }

    function Advance(st: PlanState, v: Video): PlanState
      requires |cal.slots| > 0
    {
      match Decide(st.occ, st.floor, v)
      case Locked =>
        st.(occ := st.occ.TakeLocked(cal, v.at), plan := st.plan.(kept := st.plan.kept + [v]))
      case Stays =>
        PlanState(st.occ.Take(cal, v.at), v.at, st.plan.(kept := st.plan.kept + [v]))
      case Moves(t) =>
        PlanState(st.occ.Take(cal, t), t,
                  st.plan.(moves := st.plan.moves + [Move(v.id, v.title, v.at, t)]))
      case GivesUp =>
        st.(plan := st.plan.(kept := st.plan.kept + [v]))
    }

    /** The planner's state after the first `n` videos. */
    function St(n: nat): PlanState
      requires |cal.slots| > 0 && n <= |vs|
    {
      if n == 0 then PlanState(occ, minStart, Plan([], [])) else Advance(St(n - 1), vs[n - 1])
    }

    function D(i: nat): Decision
      requires |cal.slots| > 0 && i < |vs|
    {
      Decide(St(i).occ, St(i).floor, vs[i])
    }

    /** When video `i` goes public under the plan. */
    function Target(i: nat): int
      requires |cal.slots| > 0 && i < |vs|
    {
      if D(i).Moves? then D(i).to else vs[i].at
    }

    /** The occupancy the planner may not touch: what was taken before, and the locked videos. */
    function Fixed(n: nat): Occ
      requires n <= |vs|
    {
      if n == 0 then occ
      else if IsLocked(n - 1) then Fixed(n - 1).TakeLocked(cal, vs[n - 1].at)
      else Fixed(n - 1)
    }

    /** How many of the first `n` videos the plan places on a day. */
    function Load(n: nat, day: int): nat
      requires |cal.slots| > 0 && n <= |vs|
    {
      if n == 0 then 0
      else Load(n - 1, day) + (if D(n - 1).Placed() && cal.Day(Target(n - 1)) == day then 1 else 0)
    }

    /** How many of the first `n` unlocked videos another schedule puts on a day. */
    function LoadOf(a: seq<int>, n: nat, day: int): nat
      requires n <= |vs| == |a|
    {
      if n == 0 then 0
      else LoadOf(a, n - 1, day) + (if !IsLocked(n - 1) && cal.Day(a[n - 1]) == day then 1 else 0)
    }

    /** `a` publishes every unlocked video on a grid slot nobody else holds, in the same order,
        never earlier than before, and within every day's capacity. */
    ghost predicate Schedule(a: seq<int>) {
      && |a| == |vs|
      && (forall i :: 0 <= i < |vs| && !IsLocked(i) ==>
            && vs[i].at <= a[i]
            && cal.IsSlot(a[i])
            && a[i] !in Fixed(|vs|).used
            && Fixed(|vs|).Count(cal.Day(a[i])) + LoadOf(a, |vs|, cal.Day(a[i])) <= |cal.slots|)
      && (forall i, j :: 0 <= i < j < |vs| && !IsLocked(i) && !IsLocked(j) ==> a[i] < a[j])
    }

    ghost predicate AllPlaced()
      requires |cal.slots| > 0
    {
      forall i :: 0 <= i < |vs| ==> !D(i).GivesUp?
    }

    /** The publication times of the plan. */
    function Targets(): seq<int>
      requires |cal.slots| > 0
    {
      seq(|vs|, i requires 0 <= i < |vs| => Target(i))
    }

    /** One step: a placed video gets the least free slot after the previous one that is not
        before its old time; a moved one goes strictly later. */
    lemma StepIsLeast(occ: Occ, floor: int, v: Video)
      requires cal.Valid() && minStart < v.at
      ensures var d := Decide(occ, floor, v);
              var t := if d.Moves? then d.to else v.at;
              d.Placed() ==>
                && occ.Free(cal, t) && floor < t && v.at <= t
                && (d.Moves? ==> v.at < t)
                && forall u :: occ.Free(cal, u) && floor < u && v.at <= u ==> t <= u
    {
      var nb := Bound(floor, v.at);
      FirstIsFirst(cal, v.at);
      AllocIsLeast(occ, cal, nb);
      forall u | occ.Free(cal, u) && floor < u && v.at <= u ensures nb <= u {
        assert cal.IsSlot(u);
      }
    }

    lemma {:induction false} FloorFacts(n: nat)
      requires cal.Valid() && n <= |vs|
      ensures minStart <= St(n).floor
      ensures St(n).floor == minStart
              || exists j :: 0 <= j < n && D(j).Placed() && Target(j) == St(n).floor
      ensures forall j :: 0 <= j < n && D(j).Placed() ==> Target(j) <= St(n).floor
    {
      hide Occ.Search, Calendar.IsSlot, Calendar.First;
      if n > 0 {
        FloorFacts(n - 1);
        if !IsLocked(n - 1) {
          StepIsLeast(St(n - 1).occ, St(n - 1).floor, vs[n - 1]);
        }
        if D(n - 1).Placed() {
          assert Target(n - 1) == St(n).floor;
        }
      }
    }

    /** The occupancy is the fixed part plus what the plan has placed. */
    lemma {:induction false} OccupancyFacts(n: nat)
      requires cal.Valid() && n <= |vs|
      ensures forall t :: t in St(n).occ.used <==>
                            t in Fixed(n).used
                            || exists j :: 0 <= j < n && D(j).Placed() && Target(j) == t
      ensures forall d :: St(n).occ.Count(d) == Fixed(n).Count(d) + Load(n, d)
    {
      hide Occ.Free, Occ.Search, Calendar.IsSlot, Calendar.First;
      if n > 0 {
        OccupancyFacts(n - 1);
        if !IsLocked(n - 1) {
          StepIsLeast(St(n - 1).occ, St(n - 1).floor, vs[n - 1]);
        }
        if D(n - 1).Placed() {
          assert St(n).occ == St(n - 1).occ.TakeLocked(cal, Target(n - 1));
        }
      }
    }

    /** How many of the first `n` videos are due by the earliest start and lie on a day. */
    function DueOn(n: nat, day: int): nat
      requires n <= |vs|
    {
      if n == 0 then 0 else DueOn(n - 1, day) + (if vs[n - 1].at <= minStart && cal.Day(vs[n - 1].at) == day then 1 else 0)
    }

    /** The fixed part: what was taken before and every video due by the earliest start, each one counted for its day even
        where two stand on one instant. */
    lemma {:induction false} FixedCounts(n: nat)
      requires n <= |vs|
      ensures forall t :: t in Fixed(n).used <==>
                            t in occ.used || exists i :: 0 <= i < n && vs[i].at <= minStart && vs[i].at == t
      ensures forall d :: Fixed(n).Count(d) == occ.Count(d) + DueOn(n, d)
    {
      hide Calendar.Day;
      if n > 0 {
        FixedCounts(n - 1);
      }
    }

    /** Locked videos come first, so the fixed part is complete before anything is placed. */
    lemma {:induction false} FixedIsComplete(i: nat, n: nat)
      requires Ready() && i <= n <= |vs| && (i < |vs| ==> !IsLocked(i))
      ensures Fixed(i) == Fixed(n)
    {
      if i < n {
        FixedIsComplete(i, n - 1);
        assert i < n - 1 ==> !VideoLess(vs[n - 1], vs[i]);
      }
    }

    /** Placed videos keep their chronological order, on distinct slots. */
    lemma TargetsAscend(i: nat, j: nat)
      requires cal.Valid() && i < j < |vs| && D(i).Placed() && D(j).Placed()
      ensures Target(i) < Target(j)
    {
      FloorFacts(j);
      StepIsLeast(St(j).occ, St(j).floor, vs[j]);
    }

    lemma {:induction false} LoadBelow(a: seq<int>, n: nat, t: int)
      requires |a| == |vs| && cal.Valid() && n <= |vs|
      requires forall j :: 0 <= j < n && D(j).Placed() ==>
                 !IsLocked(j) && Target(j) <= a[j] && a[j] < t
      ensures Load(n, cal.Day(t)) <= LoadOf(a, n, cal.Day(t))
    {
      if n > 0 {
        LoadBelow(a, n - 1, t);
        if D(n - 1).Placed() {
          DayBounds(cal, Target(n - 1));
          DayBounds(cal, a[n - 1]);
          assert cal.Day(Target(n - 1)) <= cal.Day(a[n - 1]) <= cal.Day(t);
        }
      }
    }

    lemma {:induction false} LoadGrows(a: seq<int>, m: nat, n: nat, day: int)
      requires m <= n <= |vs| == |a|
      ensures LoadOf(a, m, day) <= LoadOf(a, n, day)
    {
      if m < n {
        LoadGrows(a, m, n - 1, day);
      }
    }

    lemma RoomLeft(a: seq<int>, i: nat)
      requires Schedule(a) && i < |vs| && !IsLocked(i)
      ensures Fixed(|vs|).Count(cal.Day(a[i])) + LoadOf(a, i, cal.Day(a[i])) < |cal.slots|
    {
      hide Calendar.Day, Occ.Count, Problem.Fixed;
      var d := cal.Day(a[i]);
      assert LoadOf(a, i + 1, d) == LoadOf(a, i, d) + 1;
      LoadGrows(a, i + 1, |vs|, d);
    }

    lemma DayHasRoom(a: seq<int>, i: nat)
      requires Ready() && Schedule(a) && i < |vs| && !IsLocked(i)
      requires forall j :: 0 <= j < i && D(j).Placed() ==> !IsLocked(j) && Target(j) <= a[j] < a[i]
      ensures St(i).occ.Count(cal.Day(a[i])) < |cal.slots|
    {
      hide Problem.St, Problem.D, Problem.Target, Problem.Load, Problem.LoadOf, Problem.Fixed;
      hide Calendar.Day, Occ.Count, Calendar.IsSlot;
      OccupancyFacts(i);
      FixedIsComplete(i, |vs|);
      LoadBelow(a, i, a[i]);
      RoomLeft(a, i);
    }

    /** The slot any other schedule uses for video `i` is still open to the planner. */
    lemma OtherSlotIsOpen(a: seq<int>, i: nat)
      requires Ready() && Schedule(a) && i < |vs| && !IsLocked(i)
      requires forall j :: 0 <= j < i && D(j).Placed() ==> Target(j) <= a[j]
      ensures St(i).occ.Free(cal, a[i]) && St(i).floor < a[i]
    {
      forall j | 0 <= j < i && D(j).Placed() ensures !IsLocked(j) && a[j] < a[i] {}
      FloorFacts(i);
      FixedIsComplete(i, |vs|);
      DayHasRoom(a, i);
      assert a[i] !in St(i).occ.used by {
        OccupancyFacts(i);
      }
    }

    /** The greedy plan is pointwise optimal: no other schedule publishes any placed video
        earlier. */
    lemma {:induction false} Optimal(a: seq<int>, i: nat)
      requires Ready() && Schedule(a) && i < |vs| && D(i).Placed()
      ensures Target(i) <= a[i]
      decreases i
    {
      forall j | 0 <= j < i && D(j).Placed() ensures Target(j) <= a[j] {
        Optimal(a, j);
      }
      OtherSlotIsOpen(a, i);
      StepIsLeast(St(i).occ, St(i).floor, vs[i]);
    }

    lemma NothingPlacedBeforeLocked(n: nat)
      requires Ready() && n < |vs| && IsLocked(n)
      ensures forall j :: 0 <= j < n ==> !D(j).Placed()
    {
      forall j | 0 <= j < n ensures IsLocked(j) {
        assert !VideoLess(vs[n], vs[j]);
      }
    }

    lemma {:induction false} CapacityKept(n: nat)
      requires Ready() && n <= |vs|
      ensures forall j :: 0 <= j < n && D(j).Placed() ==>
                            St(n).occ.Count(cal.Day(Target(j))) <= |cal.slots|
    {
      if n > 0 {
        CapacityKept(n - 1);
        if IsLocked(n - 1) {
          NothingPlacedBeforeLocked(n - 1);
        } else {
          StepIsLeast(St(n - 1).occ, St(n - 1).floor, vs[n - 1]);
        }
      }
    }

    lemma {:induction false} LoadOfTargets(n: nat, day: int)
      requires cal.Valid() && n <= |vs| && AllPlaced()
      ensures LoadOf(Targets(), n, day) == Load(n, day)
    {
      hide Occ.Free, Occ.Alloc, Problem.St;
      if n > 0 {
        LoadOfTargets(n - 1, day);
      }
    }

    /** A plan that places every video is itself a schedule; with `Optimal` it is the earliest. */
    lemma PlanIsSchedule()
      requires Ready() && AllPlaced()
      ensures Schedule(Targets())
    {
      hide Problem.St, Occ.Search, Calendar.IsSlot, Problem.Fixed, Problem.Load, Problem.LoadOf;
      var n := |vs|;
      forall i | 0 <= i < n && !IsLocked(i)
        ensures var t := Target(i);
                && vs[i].at <= t && cal.IsSlot(t) && t !in Fixed(n).used
                && Fixed(n).Count(cal.Day(t)) + LoadOf(Targets(), n, cal.Day(t)) <= |cal.slots|
      {
        StepIsLeast(St(i).occ, St(i).floor, vs[i]);
        OccupancyFacts(i);
        FixedIsComplete(i, n);
        CapacityKept(n);
        OccupancyFacts(n);
        LoadOfTargets(n, cal.Day(Target(i)));
      }
      forall i, j | 0 <= i < j < n && !IsLocked(i) && !IsLocked(j) ensures Target(i) < Target(j) {
        TargetsAscend(i, j);
      }
    }

    /** The move planned for video `i`. */
    function MoveOf(i: nat): Move
      requires |cal.slots| > 0 && i < |vs|
    {
      Move(vs[i].id, vs[i].title, vs[i].at, Target(i))
    }

    lemma PlanStep(n: nat)
      requires |cal.slots| > 0 && n < |vs|
      ensures var (p, q) := (St(n).plan, St(n + 1).plan);
              if D(n).Moves? then q.kept == p.kept && q.moves == p.moves + [MoveOf(n)]
              else q.kept == p.kept + [vs[n]] && q.moves == p.moves
    {
    }

    /** Every listed video is answered exactly once: kept, or moved from its old time. */
    lemma {:induction false} EveryVideoOnce(n: nat)
      requires cal.Valid() && n <= |vs|
      ensures multiset(St(n).plan.kept) + multiset(OldTimes(St(n).plan.moves)) == multiset(vs[..n])
    {
      hide Problem.Decide, Problem.Advance, Problem.Target, Problem.D;
      if n == 0 {
        assert vs[..0] == [];
      } else {
        EveryVideoOnce(n - 1);
        PlanStep(n - 1);
        assert vs[..n] == vs[..n - 1] + [vs[n - 1]];
        OneMoreVideo(St(n - 1).plan, St(n).plan, vs[..n - 1], vs[n - 1], D(n - 1).Moves?, MoveOf(n - 1));
      }
    }

    /** The recorded moves are the moved videos, each to its target. */
    lemma {:induction false} MovesAreTargets(n: nat)
      requires cal.Valid() && n <= |vs|
      ensures forall m :: m in St(n).plan.moves ==>
                            exists i :: 0 <= i < n && D(i).Moves? && m == MoveOf(i)
      ensures forall i :: 0 <= i < n && D(i).Moves? ==> MoveOf(i) in St(n).plan.moves
    {
      hide Problem.Decide, Problem.Advance, Problem.Target;
      if n > 0 {
        MovesAreTargets(n - 1);
        PlanStep(n - 1);
      }
    }

    /** Every move goes strictly later than the old time. */
    lemma MovesGoLater(m: Move)
      requires cal.Valid() && m in St(|vs|).plan.moves
      ensures m.from < m.to
    {
      MovesAreTargets(|vs|);
      var i :| 0 <= i < |vs| && D(i).Moves? && m == MoveOf(i);
      StepIsLeast(St(i).occ, St(i).floor, vs[i]);
    }

    lemma {:induction false} RecordsAfter(log: seq<int>, n: nat) returns (after: seq<int>)
      requires cal.Valid() && Records(cal, occ, log) && n <= |vs|
      ensures |after| <= |log| + n && Records(cal, St(n).occ, after)
    {
      if n == 0 {
        after := log;
      } else {
        after := RecordsAfter(log, n - 1);
        var (o, v) := (St(n - 1).occ, vs[n - 1]);
        if D(n - 1).GivesUp? {
          return;
        }
        var t := if D(n - 1).Moves? then D(n - 1).to else v.at;
        TakeRecords(cal, o, after, t);
        if D(n - 1).Locked? || t !in o.used {
          after := after + [t];
        }
      }
    }

    /** Nothing the plan has done so far lies beyond its floor. */
    lemma {:induction false} BeyondFloor(n: nat)
      requires cal.Valid() && n <= |vs|
      ensures minStart <= St(n).floor
      ensures forall t :: t in St(n).occ.used && St(n).floor < t ==> t in occ.used
      ensures forall d :: cal.Day(St(n).floor) < d ==> St(n).occ.Count(d) == occ.Count(d)
    {
      hide Occ.Free, Occ.Search, Calendar.IsSlot, Calendar.First;
      if n > 0 {
        BeyondFloor(n - 1);
        var (st, v) := (St(n - 1), vs[n - 1]);
        if IsLocked(n - 1) {
          DayBounds(cal, v.at);
        } else {
          StepIsLeast(st.occ, st.floor, v);
          DayBounds(cal, st.floor);
        }
      }
    }

    /** A slot beyond the floor that is not free was blocked before the plan began, or shares the
        floor's day. */
    lemma BlockedBefore(log: seq<int>, i: nat, t: int)
      requires cal.Valid() && Records(cal, occ, log) && i < |vs| && cal.IsSlot(t) && St(i).floor < t
      requires !St(i).occ.Free(cal, t)
      ensures Blocked(cal, log, t) || cal.Day(t) == cal.Day(St(i).floor)
    {
      BeyondFloor(i);
      DayBounds(cal, St(i).floor);
      hide Problem.St, Calendar.IsSlot, Calendar.Day;
      assert occ.Count(cal.Day(t)) == OnDay(cal, log, cal.Day(t));
    }

    lemma RoomBeyondFloor(log: seq<int>, i: nat)
      requires cal.Valid() && Records(cal, occ, log) && |log| + |cal.slots| < MAX_TRIES && i < |vs|
      ensures !D(i).GivesUp?
    {
      if D(i).GivesUp? {
        hide Problem.St, Calendar.IsSlot, Calendar.Day, Calendar.First, Nth, Occ.Search, Occ.Free, Blocked;
        var (o, floor) := (St(i).occ, St(i).floor);
        var nb := Bound(floor, vs[i].at);
        FirstIsFirst(cal, vs[i].at);
        FirstIsFirst(cal, nb);
        AllocIsLeast(o, cal, nb);
        var first := cal.First(nb);
        NthSlotsSize(cal, first, MAX_TRIES);
        var all := NthSlots(cal, first, MAX_TRIES);
        var today := SlotsOn(cal, cal.Day(floor));
        SlotsOnDay(cal, cal.Day(floor));
        forall t | t in all - today ensures Blocked(cal, log, t) {
          var k: nat :| k < MAX_TRIES && t == Nth(cal, first, k);
          NthAscends(cal, first, 0, k);
          assert Nth(cal, first, 0) == first by { FirstOfNth(cal, first); }
          BlockedBefore(log, i, t);
        }
        BlockedAtMostTakes(cal, log, all - today);
        SubsetSize(all, (all - today) + today);
        assert false;
      }
    }

    /** No video is left unplaced, however many are listed, while what was taken before and one day's
        slots stay below 8000; nor while takes and videos together stay within 8000. */
    lemma EveryVideoPlaced(log: seq<int>)
      requires cal.Valid() && Records(cal, occ, log)
      requires |log| + |cal.slots| < MAX_TRIES || |log| + |vs| <= MAX_TRIES
      ensures AllPlaced()
    {
      forall i | 0 <= i < |vs| ensures !D(i).GivesUp? {
        if |log| + |cal.slots| < MAX_TRIES {
          RoomBeyondFloor(log, i);
        } else {
          var after := RecordsAfter(log, i);
          AllocSucceeds(cal, St(i).occ, after, Bound(St(i).floor, vs[i].at));
        }
      }
    }
  }

  lemma FirstOfNth(cal: Calendar, t: int)
    requires |cal.slots| > 0
    ensures Nth(cal, t, 0) == t
  {
  }

  function OldTimes(moves: seq<Move>): seq<Video> {
    Map((m: Move) => Video(m.videoId, m.title, m.from), moves)
  }

  lemma OneMoreVideo(p: Plan, q: Plan, seen: seq<Video>, v: Video, moved: bool, m: Move)
    requires multiset(p.kept) + multiset(OldTimes(p.moves)) == multiset(seen)
    requires v == Video(m.videoId, m.title, m.from)
    requires if moved then q.kept == p.kept && q.moves == p.moves + [m]
             else q.kept == p.kept + [v] && q.moves == p.moves
    ensures multiset(q.kept) + multiset(OldTimes(q.moves)) == multiset(seen + [v])
  {
    if moved {
      assert OldTimes(q.moves) == OldTimes(p.moves) + [v];
    }
  }

  /** The channel's video after the moves addressed to it. */
  function AfterMoves(moves: seq<Move>, v: Video): Video {
    if |moves| == 0 then v
    else if moves[0].videoId == v.id then v.(at := moves[0].to)
    else AfterMoves(moves[1..], v)
  }

  function PlanFor(cal: Calendar, minStart: int, occ: Occ, vids: seq<Video>): Problem {
    Problem(cal, minStart, occ, Sort(vids, VideoLess))
  }

  ghost predicate DistinctIds(vids: seq<Video>) {
    forall i, j :: 0 <= i < j < |vids| ==> vids[i].id != vids[j].id
  }

  lemma PlanForReady(cal: Calendar, minStart: int, occ: Occ, vids: seq<Video>)
    requires cal.Valid()
    ensures PlanFor(cal, minStart, occ, vids).Ready()
    ensures multiset(PlanFor(cal, minStart, occ, vids).vs) == multiset(vids)
  {
    VideoOrder();
    SortSorts(vids, VideoLess);
    SortKeepsElements(vids, VideoLess);
  }

  /** The planner takes the videos in the order of their times, and those of one instant in the order of their IDs. */
  lemma PlannedInOrder(cal: Calendar, minStart: int, occ: Occ, vids: seq<Video>)
    requires cal.Valid()
    ensures var vs := PlanFor(cal, minStart, occ, vids).vs;
            forall i, j :: 0 <= i < j < |vs| ==>
              vs[i].at < vs[j].at || (vs[i].at == vs[j].at && (vs[i].id == vs[j].id || Before(vs[i].id, vs[j].id)))
  {
    hide Sort, Before, TextLess;
    PlanForReady(cal, minStart, occ, vids);
    var vs := PlanFor(cal, minStart, occ, vids).vs;
    forall i, j | 0 <= i < j < |vs|
      ensures vs[i].at < vs[j].at || (vs[i].at == vs[j].at && (vs[i].id == vs[j].id || Before(vs[i].id, vs[j].id)))
    {
      TextLessTotal(vs[i].id, vs[j].id);
      TextLessIsBefore(vs[i].id, vs[j].id);
    }
  }

  /** Distinct IDs are distinct in any arrangement. */
  lemma DistinctInAnyOrder(a: seq<Video>, b: seq<Video>)
    requires DistinctIds(a) && multiset(a) == multiset(b)
    ensures forall x, y :: x in b && y in b && x != y ==> x.id != y.id
  {
    forall x, y | x in b && y in b && x != y ensures x.id != y.id {
      assert x in multiset(a) && y in multiset(a);
      assert x in a && y in a;
    }
  }

  lemma DistinctSorted(a: seq<Video>, b: seq<Video>)
    requires DistinctIds(a) && multiset(a) == multiset(b)
    ensures DistinctIds(b)
  {
    DistinctInAnyOrder(a, b);
    forall i, j | 0 <= i < j < |b| ensures b[i].id != b[j].id {
      if b[i] == b[j] {
        assert b == b[..i] + [b[i]] + b[i + 1..j] + [b[j]] + b[j + 1..];
        assert multiset(b)[b[i]] >= 2;
        OnceOnly(a, b[i]);
      }
    }
  }

  lemma {:induction false} OnceOnly(a: seq<Video>, v: Video)
    requires DistinctIds(a)
    ensures multiset(a)[v] <= 1
  {
    if |a| > 0 {
      OnceOnly(a[1..], v);
      assert a == [a[0]] + a[1..];
    }
  }

  /** The plan does not depend on the order in which the videos are listed. */
  lemma ListingOrderIrrelevant(cal: Calendar, minStart: int, occ: Occ, a: seq<Video>, b: seq<Video>)
    requires DistinctIds(a) && multiset(a) == multiset(b)
    ensures PlanFor(cal, minStart, occ, a) == PlanFor(cal, minStart, occ, b)
  {
    VideoOrder();
    DistinctInAnyOrder(a, a);
    SortForgetsOrder(a, b, VideoLess);
  }

  lemma {:induction false} AfterMovesFinds(moves: seq<Move>, v: Video, m: Move)
    requires m in moves && m.videoId == v.id
    requires forall x, y :: x in moves && y in moves && x.videoId == y.videoId ==> x == y
    ensures AfterMoves(moves, v) == v.(at := m.to)
  {
    if moves[0] != m {
      AfterMovesFinds(moves[1..], v, m);
    }
  }

  lemma {:induction false} AfterMovesLeaves(moves: seq<Move>, v: Video)
    requires forall m :: m in moves ==> m.videoId != v.id
    ensures AfterMoves(moves, v) == v
  {
    if |moves| > 0 {
      AfterMovesLeaves(moves[1..], v);
    }
  }

  lemma MoveReachesTarget(p: Problem, i: nat)
    requires p.Ready() && DistinctIds(p.vs) && i < |p.vs|
    ensures AfterMoves(p.St(|p.vs|).plan.moves, p.vs[i]) == p.vs[i].(at := p.Target(i))
  {
    hide Problem.St, Problem.Decide, AfterMoves;
    var moves := p.St(|p.vs|).plan.moves;
    p.MovesAreTargets(|p.vs|);
    if p.D(i).Moves? {
      AfterMovesFinds(moves, p.vs[i], p.MoveOf(i));
    } else {
      AfterMovesLeaves(moves, p.vs[i]);
    }
  }

  /** The channel after a plan has been carried out. */
  function CarriedOut(plan: Plan, vids: seq<Video>): seq<Video> {
    Map(v => AfterMoves(plan.moves, v), vids)
  }

  /** A plan without moves leaves the listing as it is, so it is a fixpoint too, also if it gave up on
      a video. */
  lemma NoMovesIsFixpoint(cal: Calendar, minStart: int, occ: Occ, vids: seq<Video>, plan: Plan)
    requires cal.Valid() && plan.moves == []
    requires plan == PlanFor(cal, minStart, occ, vids).St(|PlanFor(cal, minStart, occ, vids).vs|).plan
    ensures var q := PlanFor(cal, minStart, occ, CarriedOut(plan, vids)); q.St(|q.vs|).plan == plan
  {
    hide Problem.St, Sort, Calendar.Valid;
    assert CarriedOut(plan, vids) == vids;
  }

  /** The planning loop of the queue: sort, then decide video by video. */
  method PlanExisting(occ: SlotOccupancy, minStart: int, vids: seq<Video>) returns (plan: Plan)
    requires occ.cal.Valid()
    modifies occ
    ensures var p := PlanFor(occ.cal, minStart, old(occ.State()), vids);
            plan == p.St(|p.vs|).plan && occ.State() == p.St(|p.vs|).occ
  {
    hide Occ.Free, Occ.Search, Occ.Take, Occ.TakeLocked, Calendar.IsSlot, Calendar.First, Calendar.FirstOnDay, Calendar.Day;
    var sorted := Sort(vids, VideoLess);
    ghost var p := Problem(occ.cal, minStart, occ.State(), sorted);
    var moves: seq<Move>, kept: seq<Video> := [], [];
    var floor := minStart;
    for i := 0 to |sorted|
      invariant p.St(i) == PlanState(occ.State(), floor, Plan(moves, kept))
    {
      var v := sorted[i];
      if v.at <= minStart {
        occ.TakeLocked(v.at);
        kept := kept + [v];
        continue;
      }
      if floor < v.at && occ.IsFree(v.at) {
        occ.Take(v.at);
        floor := v.at;
        kept := kept + [v];
        continue;
      }
      var nb := FirstAtOrAfter(occ.cal, v.at);
      var notBefore := if nb.value <= floor then floor + 1 else nb.value;
      var to := occ.Allocate(notBefore);
      if to.None? {
        kept := kept + [v];
        continue;
      }
      floor := to.value;
      moves := moves + [Move(v.id, v.title, v.at, to.value)];
    }
    return Plan(moves, kept);
  }
}
