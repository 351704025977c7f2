/** Planning again after a plan was carried out: exactly when nothing is left to move. */
module ReplanFixpoint {
  import opened Ordering
  import opened SlotCalendar
  import opened SlotOccupancy
  import opened Replan

  predicate Earlier(a: int, b: int) { a < b }

  /** Publication times; the planner looks at nothing else. */
  function Times(vs: seq<Video>): seq<int> { Map((v: Video) => v.at, vs) }

  ghost predicate SameSetting(p: Problem, q: Problem) {
    p.cal == q.cal && p.minStart == q.minStart && p.occ == q.occ && p.cal.Valid()
  }

  /** A video that already sits on its target stays there, and one that could not be placed still cannot. */
  lemma StepAgain(p: Problem, q: Problem, st: PlanState, again: PlanState, v: Video, w: Video)
    requires SameSetting(p, q) && again.occ == st.occ && again.floor == st.floor && again.plan.moves == []
    requires var d := p.Decide(st.occ, st.floor, v); w.at == if d.Moves? then d.to else v.at
    ensures var next := q.Advance(again, w);
            && next.occ == p.Advance(st, v).occ && next.floor == p.Advance(st, v).floor && next.plan.moves == []
  {
    hide Occ.Free, Occ.Search, Occ.Take, Occ.TakeLocked, Calendar.First;
    if p.minStart < v.at {
      p.StepIsLeast(st.occ, st.floor, v);
    }
  }

  /** As long as the videos come in the old order, on their targets, the second plan goes through the
      states of the first and moves nothing. */
  lemma {:induction false} NothingLeftToMove(p: Problem, q: Problem, n: nat)
    requires SameSetting(p, q) && n <= |p.vs| && n <= |q.vs|
    requires forall i :: 0 <= i < n ==> q.vs[i].at == p.Target(i)
    ensures q.St(n).occ == p.St(n).occ && q.St(n).floor == p.St(n).floor && q.St(n).plan.moves == []
  {
    hide Problem.Advance, Problem.Decide;
    if n > 0 {
      NothingLeftToMove(p, q, n - 1);
      StepAgain(p, q, p.St(n - 1), q.St(n - 1), p.vs[n - 1], q.vs[n - 1]);
    }
  }

  /** The planner gave up on the video although the plan had not yet passed its old time. */
  predicate GivesUpInOrder(p: Problem, i: nat)
    requires |p.cal.slots| > 0 && i < |p.vs|
  {
    p.D(i).GivesUp? ==> p.St(i).floor <= p.vs[i].at
  }

  /** Final times are in the planning order, except behind a video whose time the plan had passed. */
  lemma FinalsAscend(p: Problem, i: nat, j: nat)
    requires p.Ready() && i < j < |p.vs| && GivesUpInOrder(p, j)
    ensures p.Target(i) <= p.Target(j)
  {
    hide Problem.St, Problem.Decide;
    assert !VideoLess(p.vs[j], p.vs[i]);
    StepKinds(p, i);
    StepKinds(p, j);
    if p.D(i).Placed() {
      if p.D(j).Placed() {
        p.TargetsAscend(i, j);
      } else {
        p.FloorFacts(j);
      }
    }
  }

  /** What each decision says about old time, target and start. */
  lemma StepKinds(p: Problem, i: nat)
    requires p.cal.Valid() && i < |p.vs|
    ensures p.D(i).Locked? <==> p.vs[i].at <= p.minStart
    ensures p.vs[i].at <= p.Target(i)
    ensures !p.D(i).Placed() ==> p.Target(i) == p.vs[i].at
    ensures p.D(i).Placed() ==> p.St(i).floor < p.Target(i)
  {
    if p.minStart < p.vs[i].at {
      p.StepIsLeast(p.St(i).occ, p.St(i).floor, p.vs[i]);
    }
  }

  // ---- the time sequence of the second plan ----

  lemma EarlierIsOrder()
    ensures WeakOrder(Earlier)
    ensures forall x, y :: x != y ==> Earlier(x, y) || Earlier(y, x)
  {
  }

  /** The sorted listing after the moves has the final times of the plan, in ascending order. */
  lemma TimesAfterMoves(cal: Calendar, minStart: int, occ: Occ, vids: seq<Video>)
    requires cal.Valid() && DistinctIds(vids)
    ensures var p := PlanFor(cal, minStart, occ, vids);
            var q := PlanFor(cal, minStart, occ, CarriedOut(p.St(|p.vs|).plan, vids));
            && p.Ready() && SameSetting(p, q) && |q.vs| == |p.vs|
            && Sorted(Times(q.vs), Earlier) && multiset(Times(q.vs)) == multiset(p.Targets())
  {
    hide Problem.St, Sort, AfterMoves, Problem.D;
    var p := PlanFor(cal, minStart, occ, vids);
    var plan := p.St(|p.vs|).plan;
    var after := CarriedOut(plan, vids);
    var q := PlanFor(cal, minStart, occ, after);
    PlanForReady(cal, minStart, occ, vids);
    PlanForReady(cal, minStart, occ, after);
    DistinctSorted(vids, p.vs);
    forall i | 0 <= i < |p.vs| ensures CarriedOut(plan, p.vs)[i].at == p.Target(i) {
      MoveReachesTarget(p, i);
    }
    assert Times(CarriedOut(plan, p.vs)) == p.Targets();
    MapKeepsPermutation(v => AfterMoves(plan.moves, v), p.vs, vids);
    MapKeepsPermutation((v: Video) => v.at, CarriedOut(plan, p.vs), q.vs);
    SortKeepsElements(vids, VideoLess);
    SortKeepsElements(after, VideoLess);
    forall i, j | 0 <= i < j < |q.vs| ensures !Earlier(Times(q.vs)[j], Times(q.vs)[i]) {
      assert !VideoLess(q.vs[j], q.vs[i]);
    }
  }

  lemma SortedTimes(ts: seq<int>, finals: seq<int>)
    requires Sorted(ts, Earlier) && Sorted(finals, Earlier) && multiset(ts) == multiset(finals)
    ensures ts == finals
  {
    EarlierIsOrder();
    SortedIsUnique(ts, finals, Earlier);
  }

  lemma JoinSorted(head: seq<int>, s: seq<int>, a: int)
    requires Sorted(head, Earlier) && Sorted(s, Earlier)
    requires (forall i :: 0 <= i < |head| ==> head[i] <= a) && (forall i :: 0 <= i < |s| ==> a <= s[i])
    ensures Sorted(head + s, Earlier)
  {
    var joined := head + s;
    forall i, j | 0 <= i < j < |joined| ensures !Earlier(joined[j], joined[i]) {
      if i < |head| <= j {
        assert joined[i] == head[i] && joined[j] == s[j - |head|];
      } else if j < |head| {
        assert !Earlier(head[j], head[i]);
      } else {
        assert !Earlier(s[j - |head|], s[i - |head|]);
      }
    }
  }

  lemma SortedRest(rest: seq<int>, a: int) returns (s: seq<int>)
    requires a in rest && forall x :: x in rest ==> a <= x
    ensures Sorted(s, Earlier) && multiset(s) == multiset(rest) && |s| == |rest| > 0 && s[0] == a
    ensures forall i :: 0 <= i < |s| ==> a <= s[i]
  {
    s := Sort(rest, Earlier);
    EarlierIsOrder();
    SortKeepsElements(rest, Earlier);
    SortSorts(rest, Earlier);
    hide Sort;
    forall i | 0 <= i < |s| ensures a <= s[i] {
      assert s[i] in multiset(s);
      assert s[i] in multiset(rest);
      assert s[i] in rest;
    }
    assert a in multiset(s);
    var k :| 0 <= k < |s| && s[k] == a;
    assert k > 0 ==> !Earlier(s[k], s[0]);
  }

  /** A sorted head below `a`, and `a` the least of the rest: sorting leaves the head and puts `a` behind it. */
  lemma SortedHead(ts: seq<int>, finals: seq<int>, j: nat, a: int)
    requires Sorted(ts, Earlier) && multiset(ts) == multiset(finals) && j < |finals|
    requires Sorted(finals[..j], Earlier) && a in finals[j..]
    requires (forall i :: 0 <= i < j ==> finals[i] <= a) && (forall x :: x in finals[j..] ==> a <= x)
    ensures |ts| == |finals| && ts[..j] == finals[..j] && ts[j] == a
  {
    hide Sorted;
    var (head, rest) := (finals[..j], finals[j..]);
    var s := SortedRest(rest, a);
    assert finals == head + rest;
    assert forall i :: 0 <= i < |head| ==> head[i] == finals[i];
    JoinSorted(head, s, a);
    SortedTimes(ts, head + s);
  }

  // ---- a give-up out of order ----

  lemma {:induction false} SearchMoreTries(occ: Occ, cal: Calendar, t: int, tries: nat)
    requires |cal.slots| > 0 && occ.Search(cal, t, tries).Some?
    ensures occ.Search(cal, t, tries + 1) == occ.Search(cal, t, tries)
    decreases tries
  {
    hide Occ.Free, Calendar.First;
    if tries > 0 && !occ.Free(cal, t) {
      SearchMoreTries(occ, cal, cal.First(t + 1), tries - 1);
    }
  }

  /** A search that starts later, but not beyond the answer, gives the same answer. */
  lemma {:induction false} SearchFromLater(occ: Occ, cal: Calendar, t: int, u: int, tries: nat)
    requires cal.Valid() && cal.IsSlot(t) && cal.IsSlot(u) && occ.Search(cal, t, tries).Some?
    requires t <= u <= occ.Search(cal, t, tries).value
    ensures occ.Search(cal, u, tries) == occ.Search(cal, t, tries)
    decreases tries
  {
    hide Occ.Free, Calendar.First, Calendar.IsSlot;
    if t < u {
      FirstIsFirst(cal, t + 1);
      SearchFromLater(occ, cal, cal.First(t + 1), u, tries - 1);
      SearchMoreTries(occ, cal, u, tries - 1);
    }
  }

  lemma AllocFromLater(occ: Occ, cal: Calendar, x: int, y: int)
    requires cal.Valid() && occ.Alloc(cal, x).Some? && x <= y <= occ.Alloc(cal, x).value
    ensures occ.Alloc(cal, y) == occ.Alloc(cal, x)
  {
    AllocIsLeast(occ, cal, x);
    FirstIsFirst(cal, x);
    FirstIsFirst(cal, y);
    SearchFromLater(occ, cal, cal.First(x), cal.First(y), MAX_TRIES);
  }

  /** Where one video moved to `to`, a later video whose time the move passed over moves there as well. */
  lemma MovesInstead(p: Problem, q: Problem, occ: Occ, floor: int, v: Video, w: Video)
    requires SameSetting(p, q) && p.minStart < v.at && p.Decide(occ, floor, v).Moves?
    requires v.at <= w.at < p.Decide(occ, floor, v).to && floor <= w.at
    ensures q.Decide(occ, floor, w).Moves?
  {
    hide Occ.Search, Occ.Alloc;
    p.StepIsLeast(occ, floor, v);
    FirstIsFirst(p.cal, v.at);
    FirstIsFirst(p.cal, w.at);
    AllocIsLeast(occ, p.cal, p.Bound(floor, v.at));
    AllocFromLater(occ, p.cal, p.Bound(floor, v.at), p.Bound(floor, w.at));
  }

  lemma {:induction false} MovesStay(p: Problem, m: nat, n: nat)
    requires |p.cal.slots| > 0 && m <= n <= |p.vs| && p.St(m).plan.moves != []
    ensures p.St(n).plan.moves != []
  {
    hide Problem.Decide, Problem.Advance;
    if m < n {
      MovesStay(p, m, n - 1);
      p.PlanStep(n - 1);
    }
  }

  /** The first placed video whose target passes `a`. */
  lemma FirstBeyond(p: Problem, a: int, i: nat) returns (j: nat)
    requires p.cal.Valid() && i <= |p.vs| && exists k :: 0 <= k < i && p.D(k).Placed() && a < p.Target(k)
    ensures j < i && p.D(j).Placed() && a < p.Target(j)
    ensures forall k :: 0 <= k < j && p.D(k).Placed() ==> p.Target(k) <= a
  {
    hide Problem.D, Problem.Target;
    if k :| 0 <= k < i && p.D(k).Placed() && a < p.Target(k) && exists l :: 0 <= l < k && p.D(l).Placed() && a < p.Target(l) {
      j := FirstBeyond(p, a, k);
    } else {
      j :| 0 <= j < i && p.D(j).Placed() && a < p.Target(j);
    }
  }

  /** Up to the first give-up behind a passed time, the second plan follows the first; that video then
      comes before the one whose move passed it, and moves. */
  lemma SecondPlanMoves(p: Problem, q: Problem, i: nat)
    requires p.Ready() && SameSetting(p, q) && |q.vs| == |p.vs| && i < |p.vs|
    requires Sorted(Times(q.vs), Earlier) && multiset(Times(q.vs)) == multiset(p.Targets())
    requires !GivesUpInOrder(p, i) && forall k :: 0 <= k < i ==> GivesUpInOrder(p, k)
    ensures q.St(|q.vs|).plan.moves != []
  {
    hide Problem.St, Problem.Decide, Sorted, Problem.Targets;
    var a := p.vs[i].at;
    p.FloorFacts(i);
    StepKinds(p, i);
    var j := FirstBeyond(p, a, i);
    OrderedAround(p, i, j);
    SortedHead(Times(q.vs), p.Targets(), j, a);
    TimesAt(p, q, j);
    NothingLeftToMove(p, q, j);
    StepKinds(p, j);
    p.FloorFacts(j);
    InOrder(p, j, i);
    MovesInstead(p, q, p.St(j).occ, p.St(j).floor, p.vs[j], q.vs[j]);
    q.PlanStep(j);
    MovesStay(q, j + 1, |q.vs|);
  }

  lemma InOrder(p: Problem, i: nat, j: nat)
    requires p.Ready() && i <= j < |p.vs|
    ensures p.vs[i].at <= p.vs[j].at
  {
    assert i < j ==> !VideoLess(p.vs[j], p.vs[i]);
  }

  lemma TimesAt(p: Problem, q: Problem, j: nat)
    requires p.cal.Valid() && j < |p.vs| == |q.vs| && Times(q.vs)[..j] == p.Targets()[..j]
    ensures q.vs[j].at == Times(q.vs)[j]
    ensures forall k :: 0 <= k < j ==> q.vs[k].at == p.Target(k)
  {
    hide Problem.St, Problem.D;
    forall k | 0 <= k < j ensures q.vs[k].at == p.Target(k) {
      assert Times(q.vs)[..j][k] == p.Targets()[..j][k];
    }
  }

  /** Final times around the move `j` that passes the time of the give-up `i`. */
  lemma OrderedAround(p: Problem, i: nat, j: nat)
    requires p.Ready() && j < i < |p.vs| && p.D(i).GivesUp?
    requires p.D(j).Placed() && p.vs[i].at < p.Target(j)
    requires forall k :: 0 <= k < j && p.D(k).Placed() ==> p.Target(k) <= p.vs[i].at
    requires forall k :: 0 <= k < i ==> GivesUpInOrder(p, k)
    ensures var (f, a) := (p.Targets(), p.vs[i].at);
            && Sorted(f[..j], Earlier) && a in f[j..]
            && (forall k :: 0 <= k < j ==> f[k] <= a) && (forall x :: x in f[j..] ==> a <= x)
  {
    hide Problem.St, Problem.Decide, Problem.D, Problem.Target, GivesUpInOrder;
    var (f, a) := (p.Targets(), p.vs[i].at);
    forall k | 0 <= k < j ensures f[k] <= a {
      StepKinds(p, k);
      InOrder(p, k, i);
    }
    forall k, l | 0 <= k < l < j ensures !Earlier(f[..j][l], f[..j][k]) {
      FinalsAscend(p, k, l);
    }
    forall k | j <= k < |f| ensures a <= f[k] {
      NotBefore(p, i, j, k);
    }
    StepKinds(p, i);
    assert f[j..][i - j] == a;
  }

  lemma NotBefore(p: Problem, i: nat, j: nat, k: nat)
    requires p.Ready() && j < i < |p.vs| && j <= k < |p.vs|
    requires p.D(j).Placed() && p.vs[i].at < p.Target(j)
    requires forall l :: 0 <= l < i ==> GivesUpInOrder(p, l)
    ensures p.vs[i].at <= p.Target(k)
  {
    hide Problem.St, Problem.Decide;
    StepKinds(p, j);
    StepKinds(p, k);
    InOrder(p, j, k);
    if p.D(k).Placed() {
      if j < k {
        p.TargetsAscend(j, k);
      }
    } else if k < i {
      p.FloorFacts(k);
      assert GivesUpInOrder(p, k);
    } else {
      InOrder(p, i, k);
    }
  }

  ghost predicate GivesUpOnlyInOrder(p: Problem)
    requires |p.cal.slots| > 0
  {
    forall i :: 0 <= i < |p.vs| ==> GivesUpInOrder(p, i)
  }

  lemma FirstOutOfOrder(p: Problem, n: nat) returns (i: nat)
    requires p.cal.Valid() && n <= |p.vs| && exists k :: 0 <= k < n && !GivesUpInOrder(p, k)
    ensures i < n && !GivesUpInOrder(p, i) && forall k :: 0 <= k < i ==> GivesUpInOrder(p, k)
  {
    hide GivesUpInOrder;
    if k :| 0 <= k < n - 1 && !GivesUpInOrder(p, k) {
      i := FirstOutOfOrder(p, n - 1);
    } else {
      i := n - 1;
    }
  }

  /** Re-planning after the moves were made moves nothing exactly if the planner gave up only on videos whose
      old time the plan had not passed: those for which the guard that compares the old time with the floor
      does not force the search beyond it. */
  lemma ReplanIsFixpoint(cal: Calendar, minStart: int, occ: Occ, vids: seq<Video>)
    requires cal.Valid() && DistinctIds(vids)
    ensures var p := PlanFor(cal, minStart, occ, vids);
            var q := PlanFor(cal, minStart, occ, CarriedOut(p.St(|p.vs|).plan, vids));
            && |q.vs| == |p.vs|
            && (q.St(|q.vs|).plan.moves == [] <==> GivesUpOnlyInOrder(p))
  {
    hide Problem.St, Problem.D, Sort, GivesUpInOrder, Sorted;
    var p := PlanFor(cal, minStart, occ, vids);
    var q := PlanFor(cal, minStart, occ, CarriedOut(p.St(|p.vs|).plan, vids));
    TimesAfterMoves(cal, minStart, occ, vids);
    if GivesUpOnlyInOrder(p) {
      FinalsSorted(p);
      SortedTimes(Times(q.vs), p.Targets());
      forall i | 0 <= i < |p.vs| ensures q.vs[i].at == p.Target(i) {
        assert Times(q.vs)[i] == p.Targets()[i];
      }
      NothingLeftToMove(p, q, |p.vs|);
    } else {
      var i := FirstOutOfOrder(p, |p.vs|);
      SecondPlanMoves(p, q, i);
    }
  }

  lemma FinalsSorted(p: Problem)
    requires p.Ready() && GivesUpOnlyInOrder(p)
    ensures Sorted(p.Targets(), Earlier)
  {
    hide Problem.St, Problem.D, GivesUpInOrder, Problem.Target;
    var f := p.Targets();
    forall i, j | 0 <= i < j < |f| ensures !Earlier(f[j], f[i]) {
      FinalsAscend(p, i, j);
    }
  }

  /** In particular when the planner gives up on nothing. */
  lemma AllPlacedIsFixpoint(cal: Calendar, minStart: int, occ: Occ, vids: seq<Video>)
    requires cal.Valid() && DistinctIds(vids) && PlanFor(cal, minStart, occ, vids).AllPlaced()
    ensures var p := PlanFor(cal, minStart, occ, vids);
            var q := PlanFor(cal, minStart, occ, CarriedOut(p.St(|p.vs|).plan, vids));
            |q.vs| == |p.vs| && q.St(|q.vs|).plan.moves == []
  {
    hide Problem.St, Problem.D, Sort;
    ReplanIsFixpoint(cal, minStart, occ, vids);
  }
}
