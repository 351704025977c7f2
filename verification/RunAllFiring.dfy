/** Firing Run-All schedules: the tick counts a fire before the sweep has started, and takes the count
    back when it does not start. Ticks and ends of fires interleave freely. */
module RunAllFiring {
  import opened Ordering
  import opened CronFields
  import opened CronSearch
  import opened RunAllSchedule

  datatype Firing = Firing(
    schedules: seq<Schedule>, lastRun: map<string, nat>,
    inFlight: multiset<string>,   // fires whose sweep has neither started nor been refused
    started: multiset<string>)    // sweeps that really started

  /** Counts a fire; the one that reaches the Repeat limit disables the schedule. */
  function Counted(sc: Schedule): Schedule {
    var n := sc.runCount + 1;
    sc.(runCount := n, enabled := sc.enabled && !(sc.maxRuns > 0 && n >= sc.maxRuns))
  }

  function Uncounted(sc: Schedule, id: string): Schedule {
    if sc.id != id || !sc.runAll || sc.runCount == 0 then sc
    else sc.(enabled := sc.enabled || (sc.maxRuns > 0 && sc.runCount == sc.maxRuns), runCount := sc.runCount - 1)
  }

  /** The tick at one schedule. */
  function TickOne(f: Firing, now: nat, zone: nat, k: nat): (g: Firing)
    requires k < |f.schedules|
    ensures |g.schedules| == |f.schedules|
  {
    var sc := f.schedules[k];
    if !Due(sc, f.lastRun, now, zone) then f
    else Firing(f.schedules[k := Counted(sc)], f.lastRun[sc.id := Floor(now)], f.inFlight + multiset{sc.id}, f.started)
  }

  /** The tick, up to the n-th schedule. */
  function TickUpTo(f: Firing, now: nat, zone: nat, n: nat): (g: Firing)
    requires n <= |f.schedules|
    ensures |g.schedules| == |f.schedules|
  {
    if n == 0 then f else TickOne(TickUpTo(f, now, zone, n - 1), now, zone, n - 1)
  }

  function Tick(f: Firing, now: nat, zone: nat): Firing { TickUpTo(f, now, zone, |f.schedules|) }

  function Uncount(schedules: seq<Schedule>, id: string): seq<Schedule> {
    Map(sc => Uncounted(sc, id), schedules)
  }

  datatype Move = Ticked(now: nat) | Began(id: string) | Skipped(id: string)

  function Apply(f: Firing, zone: nat, move: Move): Firing {
    match move
    case Ticked(now) => Tick(f, now, zone)
    case Began(id) =>
      if id !in f.inFlight then f
      else f.(inFlight := f.inFlight - multiset{id}, started := f.started + multiset{id})
    case Skipped(id) =>
      if id !in f.inFlight then f
      else f.(inFlight := f.inFlight - multiset{id}, schedules := Uncount(f.schedules, id))
  }

  function Run(init: seq<Schedule>, lastRun: map<string, nat>, zone: nat, moves: seq<Move>): Firing {
    if |moves| == 0 then Firing(init, lastRun, multiset{}, multiset{})
    else Apply(Run(init, lastRun, zone, moves[..|moves| - 1]), zone, moves[|moves| - 1])
  }

  /** A registered set: one schedule an ID, and counts not negative. */
  ghost predicate Registered(init: seq<Schedule>) {
    && (forall i, j :: 0 <= i < j < |init| ==> init[i].id != init[j].id)
    && (forall i :: 0 <= i < |init| ==> init[i].runCount >= 0)
  }

  predicate Limited(sc: Schedule) { sc.runAll && sc.maxRuns > 0 }

  /** A schedule with a Repeat limit that is enabled exactly while it is below it. One that a user switched off
      earlier, or that was edited to a limit it has already passed, is not fit. */
  predicate Fit(sc: Schedule) {
    Limited(sc) ==> sc.runCount <= sc.maxRuns && (sc.enabled <==> sc.runCount < sc.maxRuns)
  }

  /** How one schedule stands to what it was, given its sweeps and fires. */
  ghost predicate InBalance(was: Schedule, sc: Schedule, f: Firing) {
    && sc == was.(enabled := sc.enabled, runCount := sc.runCount)
    && (!was.runAll ==> sc == was)
    && (was.runAll ==> sc.runCount == was.runCount + f.started[was.id] + f.inFlight[was.id])
    && (Fit(was) ==> Fit(sc))
    && (!Fit(was) ==> sc == was && f.started[was.id] + f.inFlight[was.id] == 0)
    && (!Limited(was) ==> sc.enabled == was.enabled)
  }

  ghost predicate Balanced(init: seq<Schedule>, f: Firing) {
    |f.schedules| == |init| && forall k :: 0 <= k < |init| ==> InBalance(init[k], f.schedules[k], f)
  }

  lemma DueMeans(sc: Schedule, lastRun: map<string, nat>, now: nat, zone: nat)
    requires Due(sc, lastRun, now, zone)
    ensures sc.enabled && sc.runAll && (sc.maxRuns <= 0 || sc.runCount < sc.maxRuns)
  {
  }

  lemma OneKeeps(init: seq<Schedule>, g: Firing, now: nat, zone: nat, n: nat)
    requires Registered(init) && Balanced(init, g) && n < |init|
    ensures Balanced(init, TickOne(g, now, zone, n))
  {
    hide Due;
    var (h, sc) := (TickOne(g, now, zone, n), g.schedules[n]);
    if Due(sc, g.lastRun, now, zone) {
      DueMeans(sc, g.lastRun, now, zone);
      assert InBalance(init[n], sc, g);
      forall k | 0 <= k < |init| ensures InBalance(init[k], h.schedules[k], h) {
        assert InBalance(init[k], g.schedules[k], g);
        assert k != n ==> init[k].id != init[n].id;
      }
    }
  }

  lemma {:induction false} TickKeeps(init: seq<Schedule>, f: Firing, now: nat, zone: nat, n: nat)
    requires Registered(init) && Balanced(init, f) && n <= |init| == |f.schedules|
    ensures Balanced(init, TickUpTo(f, now, zone, n))
  {
    hide TickOne, Registered, Balanced;
    if n > 0 {
      TickKeeps(init, f, now, zone, n - 1);
      OneKeeps(init, TickUpTo(f, now, zone, n - 1), now, zone, n - 1);
    }
  }

  lemma SkipKeeps(init: seq<Schedule>, f: Firing, zone: nat, id: string)
    requires Registered(init) && Balanced(init, f)
    ensures Balanced(init, Apply(f, zone, Skipped(id)))
  {
    var h := Apply(f, zone, Skipped(id));
    if id in f.inFlight {
      forall k | 0 <= k < |init| ensures InBalance(init[k], h.schedules[k], h) {
        assert InBalance(init[k], f.schedules[k], f);
      }
    }
  }

  lemma BeginKeeps(init: seq<Schedule>, f: Firing, zone: nat, id: string)
    requires Balanced(init, f)
    ensures Balanced(init, Apply(f, zone, Began(id)))
  {
    var h := Apply(f, zone, Began(id));
    forall k | 0 <= k < |init| ensures InBalance(init[k], h.schedules[k], h) {
      assert InBalance(init[k], f.schedules[k], f);
    }
  }

  /** Under any interleaving of ticks and ends of fires, for every schedule of any registered set: its count is
      what it was plus the sweeps started plus the fires in flight. One that was fit stays so: never above its
      Repeat limit, and enabled exactly while it is below. One that was not is never fired or changed. */
  lemma {:induction false} CountsBalance(init: seq<Schedule>, lastRun: map<string, nat>, zone: nat, moves: seq<Move>)
    requires Registered(init)
    ensures Balanced(init, Run(init, lastRun, zone, moves))
  {
    hide Apply, Balanced, Registered;
    if |moves| == 0 {
      StartsBalanced(init, lastRun);
    } else {
      var f := Run(init, lastRun, zone, moves[..|moves| - 1]);
      CountsBalance(init, lastRun, zone, moves[..|moves| - 1]);
      match moves[|moves| - 1]
      case Ticked(now) => TickBalance(init, f, zone, now);
      case Began(id) => BeginKeeps(init, f, zone, id);
      case Skipped(id) => SkipKeeps(init, f, zone, id);
    }
  }

  lemma TickBalance(init: seq<Schedule>, f: Firing, zone: nat, now: nat)
    requires Registered(init) && Balanced(init, f)
    ensures Balanced(init, Apply(f, zone, Ticked(now)))
  {
    TickKeeps(init, f, now, zone, |init|);
  }

  /** In particular, where all schedules were fit they all stay so. */
  lemma FitStayFit(init: seq<Schedule>, lastRun: map<string, nat>, zone: nat, moves: seq<Move>)
    requires Registered(init) && forall sc :: sc in init ==> Fit(sc)
    ensures var now := Run(init, lastRun, zone, moves).schedules;
            |now| == |init| && forall k :: 0 <= k < |init| ==> Fit(now[k])
  {
    hide Run, Registered, Fit;
    CountsBalance(init, lastRun, zone, moves);
    var f := Run(init, lastRun, zone, moves);
    forall k | 0 <= k < |init| ensures Fit(f.schedules[k]) {
      assert InBalance(init[k], f.schedules[k], f) && init[k] in init;
    }
  }

  lemma StartsBalanced(init: seq<Schedule>, lastRun: map<string, nat>)
    requires Registered(init)
    ensures Balanced(init, Firing(init, lastRun, multiset{}, multiset{}))
  {
  }

  // ---- one fire a minute ----

  predicate RanAt(lastRun: map<string, nat>, id: string, minute: nat) { id in lastRun && lastRun[id] == minute }

  predicate SameRun(a: map<string, nat>, b: map<string, nat>, id: string) {
    (id in a <==> id in b) && (id in a ==> a[id] == b[id])
  }

  /** What a tick leaves of a schedule and of its last run. */
  ghost predicate After(f: Firing, g: Firing, now: nat, zone: nat, k: nat)
    requires k < |f.schedules| == |g.schedules|
  {
    var (was, sc) := (f.schedules[k], g.schedules[k]);
    && sc.id == was.id && sc.cron == was.cron
    && (RanAt(g.lastRun, was.id, Floor(now))
        || (sc == was && !Due(was, f.lastRun, now, zone) && SameRun(f.lastRun, g.lastRun, was.id)))
  }

  lemma DueLooksAtOwnRun(sc: Schedule, a: map<string, nat>, b: map<string, nat>, now: nat, zone: nat)
    requires SameRun(a, b, sc.id)
    ensures Due(sc, a, now, zone) == Due(sc, b, now, zone)
  {
    hide CronMatches, InWindow, Floor;
  }

  lemma {:induction false} Untouched(f: Firing, now: nat, zone: nat, n: nat, k: nat, id: string)
    requires n <= k < |f.schedules|
    ensures var g := TickUpTo(f, now, zone, n);
            g.schedules[k] == f.schedules[k] && (RanAt(g.lastRun, id, Floor(now)) || SameRun(f.lastRun, g.lastRun, id))
    decreases n
  {
    hide Due, Floor;
    if n > 0 {
      Untouched(f, now, zone, n - 1, k, id);
    }
  }

  lemma OthersStay(f: Firing, g: Firing, now: nat, zone: nat, n: nat, k: nat)
    requires k < |f.schedules| == |g.schedules| && n < |g.schedules| && n != k && After(f, g, now, zone, k)
    ensures After(f, TickOne(g, now, zone, n), now, zone, k)
  {
    hide Due, Floor;
  }

  lemma OwnTurn(f: Firing, g: Firing, now: nat, zone: nat, k: nat)
    requires k < |f.schedules| == |g.schedules| && g.schedules[k] == f.schedules[k]
    requires RanAt(g.lastRun, f.schedules[k].id, Floor(now)) || SameRun(f.lastRun, g.lastRun, f.schedules[k].id)
    ensures After(f, TickOne(g, now, zone, k), now, zone, k)
  {
    hide Due, Floor;
    if SameRun(f.lastRun, g.lastRun, f.schedules[k].id) {
      DueLooksAtOwnRun(f.schedules[k], f.lastRun, g.lastRun, now, zone);
    }
  }

  lemma {:induction false} TickLeaves(f: Firing, now: nat, zone: nat, n: nat, k: nat)
    requires k < n <= |f.schedules|
    ensures After(f, TickUpTo(f, now, zone, n), now, zone, k)
    decreases n
  {
    hide Due, Floor, After, TickOne;
    var g := TickUpTo(f, now, zone, n - 1);
    if k < n - 1 {
      TickLeaves(f, now, zone, n - 1, k);
      OthersStay(f, g, now, zone, n - 1, k);
    } else {
      Untouched(f, now, zone, n - 1, k, f.schedules[k].id);
      OwnTurn(f, g, now, zone, k);
    }
  }

  /** A second tick in the same minute fires no cron schedule again. */
  lemma OncePerMinute(f: Firing, now: nat, again: nat, zone: nat, k: nat)
    requires k < |f.schedules| && f.schedules[k].cron != "" && Floor(again) == Floor(now)
    ensures !Due(Tick(f, now, zone).schedules[k], Tick(f, now, zone).lastRun, again, zone)
  {
    hide CronMatches, Floor, InWindow, TickUpTo;
    TickLeaves(f, now, zone, |f.schedules|, k);
    var g := Tick(f, now, zone);
    var was := f.schedules[k];
    if SameRun(f.lastRun, g.lastRun, was.id) {
      DueLooksAtOwnRun(was, f.lastRun, g.lastRun, again, zone);
    }
  }

  // ---- the object ----

  class Scheduler {
    var schedules: seq<Schedule>
    var lastRun: map<string, nat>
    const zone: nat
    ghost var inFlight: multiset<string>
    ghost var started: multiset<string>

    ghost function State(): Firing
      reads this
    {
      Firing(schedules, lastRun, inFlight, started)
    }

    constructor (schedules: seq<Schedule>, zone: nat)
      ensures State() == Firing(schedules, map[], multiset{}, multiset{}) && this.zone == zone
    {
      this.schedules, this.zone, lastRun := schedules, zone, map[];
      inFlight, started := multiset{}, multiset{};
    }

    /** Fires what is due; returns the schedules to hand to the Run-All runner. */
    method OnTick(now: nat) returns (fired: seq<string>)
      modifies this
      ensures State() == Tick(old(State()), now, zone)
      ensures inFlight == old(inFlight) + multiset(fired)
    {
      hide TickOne;
      fired := [];
      ghost var f := State();
      for i := 0 to |schedules|
        invariant |schedules| == |f.schedules|
        invariant State() == TickUpTo(f, now, zone, i)
        invariant inFlight == f.inFlight + multiset(fired)
      {
        var id := schedules[i].id;
        var fires := FireIfDue(i, now);
        if fires {
          fired := fired + [id];
        }
      }
    }

    method FireIfDue(i: nat, now: nat) returns (due: bool)
      requires i < |schedules|
      modifies this
      ensures State() == TickOne(old(State()), now, zone, i)
      ensures inFlight == old(inFlight) + (if due then multiset{old(schedules[i].id)} else multiset{})
    {
      hide Due, CronMatches, Floor;
      var sc := schedules[i];
      var minute := Floor(now);
      due := IsDue(sc, now, minute);
      if due {
        lastRun := lastRun[sc.id := minute];
        var n := sc.runCount + 1;
        var on := if sc.maxRuns > 0 && n >= sc.maxRuns then false else sc.enabled;
        schedules := schedules[i := sc.(runCount := n, enabled := on)];
        inFlight := inFlight + multiset{sc.id};
      }
    }

    /** The checks of one schedule, in their order. */
    method IsDue(sc: Schedule, now: nat, minute: nat) returns (due: bool)
      requires minute == Floor(now)
      ensures due <==> Due(sc, lastRun, now, zone)
    {
      hide CronMatches, Floor;
      if !sc.enabled || !sc.runAll {
        return false;
      }
      if sc.startAt.Some? && minute < Floor(sc.startAt.value) {
        return false;
      }
      if sc.endAt.Some? && minute > sc.endAt.value {
        return false;
      }
      if sc.maxRuns > 0 && sc.runCount >= sc.maxRuns {
        return false;
      }
      var ran := sc.id in lastRun;
      if sc.cron != "" {
        due := CronMatches(sc.cron, minute / 60 + zone) && !(ran && !(lastRun[sc.id] < minute));
      } else if sc.interval > 0 {
        due := !ran || now - lastRun[sc.id] >= sc.interval;
      } else {
        due := false;
      }
    }

    /** The sweep of a fire did not start. */
    method UncountRunAll(id: string)
      requires id in inFlight
      modifies this
      ensures State() == Apply(old(State()), zone, Skipped(id))
    {
      ghost var was := schedules;
      for i := 0 to |schedules|
        invariant |schedules| == |was|
        invariant State() == old(State()).(schedules := schedules)
        invariant forall k :: 0 <= k < i ==> schedules[k] == Uncounted(was[k], id)
        invariant forall k :: i <= k < |was| ==> schedules[k] == was[k]
      {
        var sc := schedules[i];
        if sc.id != id || !sc.runAll || sc.runCount == 0 {
          continue;
        }
        var on := if sc.maxRuns > 0 && sc.runCount == sc.maxRuns then true else sc.enabled;
        schedules := schedules[i := sc.(enabled := on, runCount := sc.runCount - 1)];
      }
      assert schedules == Uncount(was, id);
      inFlight := inFlight - multiset{id};
    }

    /** The earliest coming fire of one schedule. */
    method NextRun(sc: Schedule, now: nat) returns (next: Option<int>)
      ensures next == NextFor(sc, lastRun, now, zone)
    {
      hide FirstMatch, Limit, Floor, Ceil;
      var lb := Floor(now) + 60;
      if sc.runAll && sc.startAt.Some? {
        var st := Ceil(sc.startAt.value);
        if st > lb {
          lb := st;
        }
      }
      assert lb == Earliest(sc, now);
      if sc.cron != "" {
        var t := NextCronTime(sc.cron, lb / 60 + zone);
        if t.None? {
          return None;
        }
        next := Some((t.value - zone) * 60);
      } else if sc.interval > 0 {
        next := Some(lb);
        if sc.id in lastRun {
          var t := Ceil(lastRun[sc.id] + sc.interval);
          if t > lb {
            next := Some(t);
          }
        }
      } else {
        return None;
      }
      if sc.runAll && sc.endAt.Some? && next.value > sc.endAt.value {
        return None;
      }
    }
  }
}
