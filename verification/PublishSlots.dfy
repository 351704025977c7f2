/** Which slots the publishing queue hands out. */
module PublishSlots {
  import opened Ordering
  import opened SlotCalendar
  import opened SlotOccupancy
  import opened Replan
  import opened ReplanFixpoint
  import opened PublishQueue
  import opened PublishRuns

  function MinStart(cfg: Config, req: Request): int { req.now + cfg.minLead }

  lemma {:induction false} LiveSlotsTaken(cal: Calendar, m: int, occ: Occ, es: seq<Entry>)
    ensures var r := TakeLive(cal, m, occ, es);
            && (forall t :: t in occ.used ==> t in r.used)
            && (forall e :: e in es && e.Live() && e.slot.Some? && m < e.slot.value ==> e.slot.value in r.used)
  {
    if |es| > 0 {
      LiveSlotsTaken(cal, m, occ, es[..|es| - 1]);
      assert es == es[..|es| - 1] + [es[|es| - 1]];
    }
  }

  lemma {:induction false} KnownTimesTaken(cal: Calendar, now: int, occ: Occ, es: seq<Entry>)
    ensures var r := TakeKnown(cal, now, occ, es);
            && (forall t :: t in occ.used ==> t in r.used)
            && (forall e :: e in es && e.videoId != "" && e.slot.Some? && now < e.slot.value ==>
                              e.slot.value in r.used)
            && (forall e :: e in es && e.videoId != "" && e.previous.Some? && now < e.previous.value ==>
                              e.previous.value in r.used)
  {
    if |es| > 0 {
      KnownTimesTaken(cal, now, occ, es[..|es| - 1]);
      assert es == es[..|es| - 1] + [es[|es| - 1]];
    }
  }

  lemma {:induction false} FixedKeepsTaken(p: Problem, n: nat)
    requires n <= |p.vs|
    ensures forall t :: t in p.occ.used ==> t in p.Fixed(n).used
    ensures forall i :: 0 <= i < n && p.IsLocked(i) ==> p.vs[i].at in p.Fixed(n).used
  {
    if n > 0 {
      FixedKeepsTaken(p, n - 1);
    }
  }

  /** Everything taken before the plan, and every target of the plan, is taken after it. */
  lemma PlanTakes(p: Problem)
    requires p.cal.Valid()
    ensures forall t :: t in p.occ.used ==> t in p.St(|p.vs|).occ.used
    ensures forall i :: 0 <= i < |p.vs| && !p.D(i).GivesUp? ==> p.Target(i) in p.St(|p.vs|).occ.used
  {
    FixedKeepsTaken(p, |p.vs|);
    p.OccupancyFacts(|p.vs|);
  }

  lemma {:induction false} LiveRecords(cal: Calendar, m: int, es: seq<Entry>) returns (log: seq<int>)
    ensures |log| <= |es| && Records(cal, TakeLive(cal, m, Occ({}, map[]), es), log)
  {
    if |es| == 0 {
      log := [];
    } else {
      log := LiveRecords(cal, m, es[..|es| - 1]);
      var e := es[|es| - 1];
      if e.Live() && e.slot.Some? && m < e.slot.value {
        log := TakeOneRecords(cal, TakeLive(cal, m, Occ({}, map[]), es[..|es| - 1]), log, e.slot.value);
      }
    }
  }

  lemma TakeOneRecords(cal: Calendar, occ: Occ, log: seq<int>, t: int) returns (after: seq<int>)
    requires Records(cal, occ, log)
    ensures |after| <= |log| + 1 && Records(cal, occ.Take(cal, t), after)
  {
    TakeRecords(cal, occ, log, t);
    after := if t in occ.used then log else log + [t];
  }

  lemma {:induction false} KnownRecords(cal: Calendar, now: int, occ: Occ, log: seq<int>, es: seq<Entry>)
    returns (after: seq<int>)
    requires Records(cal, occ, log)
    ensures |after| <= |log| + 2 * |es| && Records(cal, TakeKnown(cal, now, occ, es), after)
  {
    if |es| == 0 {
      after := log;
    } else {
      after := KnownRecords(cal, now, occ, log, es[..|es| - 1]);
      var (e, o) := (es[|es| - 1], TakeKnown(cal, now, occ, es[..|es| - 1]));
      if e.videoId != "" {
        if e.slot.Some? && now < e.slot.value {
          after := TakeOneRecords(cal, o, after, e.slot.value);
        }
        o := TakeIfLater(cal, now, o, e.slot);
        if e.previous.Some? && now < e.previous.value {
          after := TakeOneRecords(cal, o, after, e.previous.value);
        }
      }
    }
  }

  /** How many takes a reservation can have recorded before it looks for its own slot. */
  function TakesBound(q: Queue, req: Request): nat {
    match req.listing
    case Some(vids) => |q.entries| + |vids|
    case None => 3 * |q.entries|
  }

  lemma PreparedRecords(q: Queue, cfg: Config, req: Request) returns (log: seq<int>)
    requires cfg.cal.Valid()
    ensures |log| <= TakesBound(q, req) && Records(cfg.cal, Prepare(q, cfg, req).occ, log)
  {
    var held := StaleReleased(cfg, req, q.entries);
    log := LiveRecords(cfg.cal, MinStart(cfg, req), held);
    var occ := LiveOcc(cfg, req, q.entries);
    if req.listing.Some? {
      PlanForReady(cfg.cal, MinStart(cfg, req), occ, req.listing.value);
      SortKeepsElements(req.listing.value, VideoLess);
      var p := PlanOf(cfg, req, occ, req.listing.value);
      log := p.RecordsAfter(log, |p.vs|);
    } else {
      log := KnownRecords(cfg.cal, req.now, occ, log, held);
    }
  }

  /** Whether the operation, if it needs a slot, already holds one that is far enough away. */
  predicate HoldsSlot(q: Queue, cfg: Config, req: Request) {
    var oi := IndexByOp(q.entries, req.opKey);
    oi.Some? && Holds(q.entries[oi.value], MinStart(cfg, req))
  }

  /** The 8000 grid slots from the earliest start on are all unavailable. */
  ghost predicate AllUnfree(cal: Calendar, occ: Occ, start: int)
    requires |cal.slots| > 0
  {
    forall k :: 0 <= k < MAX_TRIES ==> !occ.Free(cal, Nth(cal, cal.First(start), k))
  }

  lemma AllocFailsExactly(cal: Calendar, occ: Occ, start: int)
    requires cal.Valid()
    ensures occ.Alloc(cal, start).None? <==> AllUnfree(cal, occ, start)
  {
    AllocIsLeast(occ, cal, start);
    FirstIsFirst(cal, start);
    SearchStaysNear(occ, cal, cal.First(start), MAX_TRIES);
  }

  /** A reservation fails for want of a slot exactly if the operation needs one, holds none, and the 8000 grid
      slots from the earliest start are all unavailable once reservations and listed videos are accounted
      for. That takes 7600 listed videos: with fewer, or when the channel could not be listed, it never fails. */
  lemma NeverFull(q: Queue, cfg: Config, req: Request)
    requires ReserveOp(cfg, req).Valid() && Inv(q.entries)
    ensures var q0 := q.(entries := Pruned(q.entries, req.now));
            var p := Prepare(q0, cfg, req);
            AfterReserve(q, cfg, req).1.NoFreeSlot? <==>
              Grants(q0, req) && !HoldsSlot(p.queue, cfg, req) && AllUnfree(cfg.cal, p.occ, MinStart(cfg, req))
    ensures AfterReserve(q, cfg, req).1.NoFreeSlot? ==> req.listing.Some? && |req.listing.value| >= 7600
  {
    hide Prepare, Pruned, Occ.Search, Calendar.First, AllUnfree, Occ.Alloc;
    PrunedKeepsInv(q.entries, req.now);
    var q0 := q.(entries := Pruned(q.entries, req.now));
    AllocFailsExactly(cfg.cal, Prepare(q0, cfg, req).occ, MinStart(cfg, req));
    var log := PreparedRecords(q0, cfg, req);
    if |log| < MAX_TRIES {
      AllocSucceeds(cfg.cal, Prepare(q0, cfg, req).occ, log, MinStart(cfg, req));
    }
  }

  /** What the planner finds taken when a reservation calls it: at most one take an entry. */
  lemma LiveOccRecords(cfg: Config, req: Request, es: seq<Entry>) returns (log: seq<int>)
    requires cfg.cal.Valid()
    ensures |log| <= |es| && Records(cfg.cal, LiveOcc(cfg, req, es), log)
  {
    log := LiveRecords(cfg.cal, MinStart(cfg, req), StaleReleased(cfg, req, es));
  }

  /** However many videos are listed, a reservation's plan places every one of them: there are at most 400
      entries, and at most 1440 slots a day. */
  lemma AllListedPlaced(cfg: Config, req: Request, es: seq<Entry>, vids: seq<Video>)
    requires cfg.cal.Valid() && |es| <= MAX_ENTRIES
    ensures PlanOf(cfg, req, LiveOcc(cfg, req, es), vids).AllPlaced()
  {
    hide Problem.D;
    var log := LiveOccRecords(cfg, req, es);
    AtMost1440Slots(cfg.cal);
    PlanOf(cfg, req, LiveOcc(cfg, req, es), vids).EveryVideoPlaced(log);
  }

  /** So there re-planning is a fixpoint without any condition. */
  lemma ReserveReplanIsFixpoint(q: Queue, cfg: Config, req: Request, vids: seq<Video>)
    requires ReserveOp(cfg, req).Valid() && Inv(q.entries) && DistinctIds(vids)
    ensures var occ := LiveOcc(cfg, req, Pruned(q.entries, req.now));
            var p := PlanOf(cfg, req, occ, vids);
            var again := PlanOf(cfg, req, occ, CarriedOut(p.St(|p.vs|).plan, vids));
            p.AllPlaced() && |again.vs| == |p.vs| && again.St(|again.vs|).plan.moves == []
  {
    hide Problem.St, Problem.D, LiveOcc, Pruned;
    PrunedKeepsInv(q.entries, req.now);
    AllListedPlaced(cfg, req, Pruned(q.entries, req.now), vids);
    AllPlacedIsFixpoint(cfg.cal, MinStart(cfg, req), LiveOcc(cfg, req, Pruned(q.entries, req.now)), vids);
  }

  lemma LiveStayTaken(q: Queue, cfg: Config, req: Request, e: Entry)
    requires ReserveOp(cfg, req).Valid() && e in Prepare(q, cfg, req).queue.entries
    requires e.Live() && e.slot.Some? && MinStart(cfg, req) < e.slot.value
    ensures e.slot.value in Prepare(q, cfg, req).occ.used
  {
    hide Occ.Take, Sort, VideoIndex, RecordPlan, Problem.St;
    var held := StaleReleased(cfg, req, q.entries);
    PrepareEvolves(q, cfg, req);
    assert e in held;
    LiveSlotsTaken(cfg.cal, MinStart(cfg, req), Occ({}, map[]), held);
    var occ := LiveOcc(cfg, req, q.entries);
    if req.listing.Some? {
      PlanTakes(PlanOf(cfg, req, occ, req.listing.value));
    } else {
      KnownTimesTaken(cfg.cal, req.now, occ, held);
    }
  }

  /** Instants in use on a local day. */
  ghost function UsedOn(cal: Calendar, occ: Occ, day: int): set<int> {
    set t | t in occ.used && cal.Day(t) == day
  }

  /** A freshly granted slot is on the grid, far enough away, unused, and its day still has
      room for it. */
  lemma FreshSlotIsFree(q: Queue, cfg: Config, req: Request)
    requires ReserveOp(cfg, req).Valid() && FreshGrant(Prepare(q, cfg, req), cfg, req)
    ensures var p := Prepare(q, cfg, req);
            var s := p.occ.Alloc(cfg.cal, MinStart(cfg, req)).value;
            && Grant(p, cfg, req).1 == Granted(Some(s), p.moves, p.kept)
            && cfg.cal.IsSlot(s) && MinStart(cfg, req) <= s && s !in p.occ.used
            && |UsedOn(cfg.cal, p.occ, cfg.cal.Day(s))| < |cfg.cal.slots|
  {
    hide Prepare, Occ.Search, Calendar.First, Calendar.IsSlot, Calendar.Day;
    var p := Prepare(q, cfg, req);
    AllocIsLeast(p.occ, cfg.cal, MinStart(cfg, req));
    var s := p.occ.Alloc(cfg.cal, MinStart(cfg, req)).value;
    var d := cfg.cal.Day(s);
    var log := PreparedRecords(q, cfg, req);
    TakesOnDay(cfg.cal, log, d);
    forall t | t in UsedOn(cfg.cal, p.occ, d) ensures t in TakenOn(cfg.cal, log, d) {}
    SubsetSize(UsedOn(cfg.cal, p.occ, d), TakenOn(cfg.cal, log, d));
    assert p.occ.Count(d) == OnDay(cfg.cal, log, d);
  }

  lemma PlannedOcc(q: Queue, cfg: Config, req: Request)
    requires |cfg.cal.slots| > 0 && req.listing.Some?
    ensures var p := PlanOf(cfg, req, LiveOcc(cfg, req, q.entries), req.listing.value);
            Prepare(q, cfg, req).occ == p.St(|p.vs|).occ
  {
    hide Problem.St, LiveOcc, RecordPlan;
  }

  /** It differs from the planned time of every listed video: the queue a reservation prepares has at most
      400 entries. */
  lemma FreshSlotAvoidsListed(q: Queue, cfg: Config, req: Request, i: nat)
    requires ReserveOp(cfg, req).Valid() && FreshGrant(Prepare(q, cfg, req), cfg, req)
    requires req.listing.Some?
    requires var p := PlanOf(cfg, req, LiveOcc(cfg, req, q.entries), req.listing.value);
             i < |p.vs| && (|q.entries| <= MAX_ENTRIES || !p.D(i).GivesUp?)
    ensures var p := PlanOf(cfg, req, LiveOcc(cfg, req, q.entries), req.listing.value);
            Prepare(q, cfg, req).occ.Alloc(cfg.cal, MinStart(cfg, req)) != Some(p.Target(i))
  {
    hide Prepare, Occ.Alloc, LiveOcc, Problem.St, Problem.D, Problem.Target, Calendar.IsSlot, Calendar.Day;
    PlannedOcc(q, cfg, req);
    FreshSlotIsFree(q, cfg, req);
    if |q.entries| <= MAX_ENTRIES {
      AllListedPlaced(cfg, req, q.entries, req.listing.value);
    }
    PlanTakes(PlanOf(cfg, req, LiveOcc(cfg, req, q.entries), req.listing.value));
  }

  /** When the channel could not be listed it differs from every time known for a video. */
  lemma FreshSlotAvoidsKnown(q: Queue, cfg: Config, req: Request, e: Entry)
    requires ReserveOp(cfg, req).Valid() && FreshGrant(Prepare(q, cfg, req), cfg, req)
    requires req.listing.None? && 0 < cfg.minLead && e in q.entries && e.videoId != ""
    ensures var s := Prepare(q, cfg, req).occ.Alloc(cfg.cal, MinStart(cfg, req)).value;
            e.slot != Some(s) && e.previous != Some(s)
  {
    FreshSlotIsFree(q, cfg, req);
    var held := StaleReleased(cfg, req, q.entries);
    var i :| 0 <= i < |q.entries| && q.entries[i] == e;
    assert held[i] == e && e in held;
    KnownTimesTaken(cfg.cal, req.now, LiveOcc(cfg, req, q.entries), held);
  }

  /** It differs from every slot promised to an upload in flight, unless that slot lies exactly
      at the earliest permitted instant. */
  lemma FreshSlotAvoidsLive(q: Queue, cfg: Config, req: Request, e: Entry)
    requires ReserveOp(cfg, req).Valid() && FreshGrant(Prepare(q, cfg, req), cfg, req)
    requires e in Prepare(q, cfg, req).queue.entries && e.Live()
    ensures e.slot == Prepare(q, cfg, req).occ.Alloc(cfg.cal, MinStart(cfg, req)) ==> e.slot == Some(MinStart(cfg, req))
  {
    hide Prepare, Occ.Alloc, Calendar.IsSlot, Calendar.Day;
    FreshSlotIsFree(q, cfg, req);
    if e.slot.Some? && MinStart(cfg, req) < e.slot.value {
      LiveStayTaken(q, cfg, req, e);
    }
  }

  /** The boundary case: another upload in flight holds exactly the earliest permitted instant,
      and the allocator considers that instant free. */
  ghost predicate BoundaryClash(q: Queue, cfg: Config, req: Request)
    requires |cfg.cal.slots| > 0
  {
    var p := Prepare(q, cfg, req);
    && p.occ.Free(cfg.cal, MinStart(cfg, req))
    && exists e :: e in p.queue.entries && e.Live() && e.opKey != req.opKey
                   && e.slot == Some(MinStart(cfg, req))
  }

  lemma FreeStartIsGranted(cal: Calendar, occ: Occ, start: int)
    requires cal.Valid() && occ.Free(cal, start)
    ensures occ.Alloc(cal, start) == Some(start)
  {
    AllocIsLeast(occ, cal, start);
    FirstIsUnique(cal, start, start);
    assert Nth(cal, start, 0) == start;
  }

  /** The entries other than the operation's own are the prepared ones. */
  lemma OthersUnchanged(q: Queue, cfg: Config, req: Request, free: int, moves: seq<Move>, kept: nat)
    requires var oi := IndexByOp(q.entries, req.opKey);
             oi.Some? ==> !Holds(q.entries[oi.value], MinStart(cfg, req)) && q.entries[oi.value].videoId == ""
    ensures var es := GrantFrom(q, cfg, req, Some(free), moves, kept).0.entries;
            var oi := IndexByOp(q.entries, req.opKey);
            var own := if oi.Some? then oi.value else |q.entries|;
            && own < |es| && es[own].Live() && es[own].slot == Some(free) && es[own].opKey == req.opKey
            && (forall i :: 0 <= i < |es| && i != own ==> i < |q.entries| && es[i] == q.entries[i])
            && (forall i :: 0 <= i < |q.entries| && i != own ==> es[i] == q.entries[i])
  {
  }

  lemma ClashIffShared(q: Queue, cfg: Config, req: Request, s: int)
    requires ReserveOp(cfg, req).Valid() && FreshGrant(Prepare(q, cfg, req), cfg, req)
    requires s == Prepare(q, cfg, req).occ.Alloc(cfg.cal, MinStart(cfg, req)).value
    ensures BoundaryClash(q, cfg, req) <==>
            exists e :: e in Prepare(q, cfg, req).queue.entries && e.Live() && e.opKey != req.opKey
                        && e.slot == Some(s)
  {
    hide Prepare;
    var p := Prepare(q, cfg, req);
    var start := MinStart(cfg, req);
    if BoundaryClash(q, cfg, req) {
      FreeStartIsGranted(cfg.cal, p.occ, start);
    }
    if e :| e in p.queue.entries && e.Live() && e.opKey != req.opKey && e.slot == Some(s) {
      FreshSlotAvoidsLive(q, cfg, req, e);
      AllocIsLeast(p.occ, cfg.cal, start);
    }
  }

  /** Two retained reservations end up on one slot exactly in the boundary case. */
  lemma SharedExactlyAtBoundary(q: Queue, cfg: Config, req: Request)
    requires ReserveOp(cfg, req).Valid() && Inv(q.entries) && NoSharedSlot(q.entries)
    requires Grants(q, req) && FreshGrant(Prepare(q, cfg, req), cfg, req)
    ensures NoSharedSlot(Grant(Prepare(q, cfg, req), cfg, req).0.entries) <==> !BoundaryClash(q, cfg, req)
  {
    hide Prepare, Occ.Alloc;
    var p := Prepare(q, cfg, req);
    var s := p.occ.Alloc(cfg.cal, MinStart(cfg, req)).value;
    PrepareKeepsInv(q, cfg, req);
    PrepareKeepsOwn(q, cfg, req);
    OthersUnchanged(p.queue, cfg, req, s, p.moves, p.kept);
    SharedWithOwn(p.queue.entries, Grant(p, cfg, req).0.entries, req.opKey, s);
    ClashIffShared(q, cfg, req, s);
  }

  lemma SharedWithOwn(before: seq<Entry>, es: seq<Entry>, opKey: string, s: int)
    requires NoSharedSlot(before) && Inv(before) && opKey != ""
    requires var oi := IndexByOp(before, opKey);
             var own := if oi.Some? then oi.value else |before|;
             && own < |es| && es[own].Live() && es[own].slot == Some(s)
             && (forall i :: 0 <= i < |es| && i != own ==> i < |before| && es[i] == before[i])
             && (forall i :: 0 <= i < |before| && i != own ==> i < |es| && es[i] == before[i])
    ensures NoSharedSlot(es) <==>
            !exists e :: e in before && e.Live() && e.opKey != opKey && e.slot == Some(s)
  {
    var oi := IndexByOp(before, opKey);
    var own := if oi.Some? then oi.value else |before|;
    if e :| e in before && e.Live() && e.opKey != opKey && e.slot == Some(s) {
      var i :| 0 <= i < |before| && before[i] == e;
      assert i != own && es[i] == e;
    } else {
      forall i, j | 0 <= i < j < |es| && es[i].Live() && es[j].Live() ensures es[i].slot != es[j].slot {
        if i == own || j == own {
          var k := if i == own then j else i;
          assert es[k] in before;
          assert before[k].opKey != opKey by {
            if oi.Some? {
              assert OneKey(before[if k < own then k else own], before[if k < own then own else k]);
            }
          }
        }
      }
    }
  }

  // ---- runs ----

  /** The operation is a reservation that meets the boundary case in state `q`. */
  ghost predicate Clashes(q: Queue, op: Op)
    requires op.Valid()
  {
    op.ReserveOp? &&
    var q0 := q.(entries := Pruned(q.entries, op.req.now));
    && Grants(q0, op.req) && FreshGrant(Prepare(q0, op.cfg, op.req), op.cfg, op.req)
    && BoundaryClash(q0, op.cfg, op.req)
  }

  /** Over every run without the boundary case, retained reservations never share a slot. */
  lemma {:induction false} RunsShareNoSlot(q: Queue, ops: seq<Op>)
    requires Inv(q.entries) && NoSharedSlot(q.entries) && forall op :: op in ops ==> op.Valid()
    requires forall k :: 0 <= k < |ops| ==> !Clashes(ApplyAll(q, ops[..k]), ops[k])
    ensures NoSharedSlot(ApplyAll(q, ops).entries)
  {
    if |ops| > 0 {
      var (front, op) := (ops[..|ops| - 1], ops[|ops| - 1]);
      assert op in ops;
      forall k | 0 <= k < |front| ensures !Clashes(ApplyAll(q, front[..k]), front[k]) {
        assert front[..k] == ops[..k];
      }
      RunsShareNoSlot(q, front);
      RunsKeepInv(q, front);
      StepSharesNoSlot(ApplyAll(q, front), op);
    }
  }

  lemma StepSharesNoSlot(q: Queue, op: Op)
    requires Inv(q.entries) && NoSharedSlot(q.entries) && op.Valid() && !Clashes(q, op)
    ensures NoSharedSlot(Apply(q, op).entries)
  {
    match op
    case ReserveOp(cfg, req) =>
      ReserveKeeps(q, cfg, req);
      var q0 := q.(entries := Pruned(q.entries, req.now));
      if Grants(q0, req) && FreshGrant(Prepare(q0, cfg, req), cfg, req) {
        SharedExactlyAtBoundary(q0, cfg, req);
      }
    case CommitOp(opKey, videoId, at) => CommitKeeps(q, opKey, videoId, at);
    case ReleaseOp(opKey, at) => ReleaseKeeps(q, opKey, at);
    case OutcomesOp(outs, at) => OutcomesKeep(q.entries, outs, at);
  }

  // ---- retries ----

  /** A committed operation is answered with its video and never given a slot again while its
      entry is retained. */
  lemma CommittedIsDone(q: Queue, cfg: Config, req: Request, e: Entry)
    requires ReserveOp(cfg, req).Valid() && Inv(q.entries)
    requires e in Pruned(q.entries, req.now) && e.opKey == req.opKey && e.videoId != ""
    ensures AfterReserve(q, cfg, req)
         == (q.(entries := Pruned(q.entries, req.now)), AlreadyDone(e.slot, e.videoId))
  {
    var es := Pruned(q.entries, req.now);
    PrunedKeepsInv(q.entries, req.now);
    var oi := IndexByOp(es, req.opKey);
    assert es[oi.value] in es;
    SameKeySameEntry(es, e, es[oi.value]);
  }

  /** A retry of an upload still in flight keeps its slot while that slot is far enough away,
      unless its video turns out to be online already. */
  lemma RetryKeepsSlot(q: Queue, cfg: Config, req: Request, e: Entry)
    requires ReserveOp(cfg, req).Valid() && Inv(q.entries)
    requires e in Pruned(q.entries, req.now) && e.opKey == req.opKey
    requires e.Live() && e.slot.Some? && MinStart(cfg, req) < e.slot.value
    ensures var (q', a) := AfterReserve(q, cfg, req);
            a.Adopted? || (a.Granted? && a.slot == e.slot)
  {
    var q0 := q.(entries := Pruned(q.entries, req.now));
    PrunedKeepsInv(q.entries, req.now);
    var oi := IndexByOp(q0.entries, req.opKey);
    assert q0.entries[oi.value] in q0.entries;
    SameKeySameEntry(q0.entries, e, q0.entries[oi.value]);
    if Grants(q0, req) {
      PrepareKeepsOwn(q0, cfg, req);
    }
  }

  // ---- the boundary case is reachable ----

  const DHAKA := Calendar(21600, [SlotHM(7, 0), SlotHM(22, 0)])
  const DEFAULTS := Config(DHAKA, 120, 2700)

  lemma SevenIsFirst(x: int)
    requires 3000 <= x <= 3600
    ensures DHAKA.Valid() && DHAKA.First(x) == 3600 && DHAKA.IsSlot(3600) && DHAKA.Day(3600) == 0
  {
    assert DHAKA.slots[0].Offset() == 25200 && DHAKA.slots[1].Offset() == 79200;
    assert DHAKA.Day(x) == 0 && DHAKA.At(0, 25200) == 3600;
    assert 3600 == DHAKA.At(DHAKA.Day(3600), DHAKA.slots[0].Offset());
  }

  lemma EmptyDayAlloc(now: int)
    requires 2900 <= now <= 3480
    ensures Occ({}, map[]).Alloc(DHAKA, now + 120) == Some(3600)
  {
    SevenIsFirst(now + 120);
    assert Occ({}, map[]).Free(DHAKA, 3600);
  }

  /** Nothing to consider: no entry, or one reservation exactly at the earliest instant. */
  ghost predicate Quiet(op: string, now: int, es: seq<Entry>) {
    || es == []
    || (|es| == 1 && es[0].opKey != op && es[0].Live() && es[0].slot == Some(3600)
        && es[0].updatedAt.Some? && now - es[0].updatedAt.value <= 2700 && now == 3480)
  }

  lemma NothingTaken(op: string, now: int, es: seq<Entry>)
    requires Quiet(op, now, es)
    ensures Pruned(es, now) == es
    ensures var q := Queue(|es|, es);
            Prepare(q, DEFAULTS, Request(op, "", now, None)) == Prepared(q, Occ({}, map[]), [], 0)
  {
    var req := Request(op, "", now, None);
    var keep := e => Retained(now, e);
    assert StaleReleased(DEFAULTS, req, es) == es;
    if |es| == 1 {
      assert es[..0] == [] && es == [es[0]];
      assert keep(es[0]);
      assert Filter(keep, es) == Filter(keep, es[..0]) + [es[0]];
      assert TakeLive(DHAKA, now + 120, Occ({}, map[]), es) == Occ({}, map[]);
      assert TakeKnown(DHAKA, now, Occ({}, map[]), es) == Occ({}, map[]);
    }
  }

  lemma NewEntryGranted(q: Queue, cfg: Config, req: Request, free: int)
    requires IndexByOp(q.entries, req.opKey).None?
    ensures GrantFrom(q, cfg, req, Some(free), [], 0)
         == (Queue(q.counter + 1,
                   q.entries + [Entry(req.opKey, "", req.title, New, Reserved, Some(free), None,
                                      q.counter + 1, 1, Some(req.now))]),
             Granted(Some(free), [], 0))
  {
  }

  function WithNew(q: Queue, req: Request, free: int): Queue {
    Queue(q.counter + 1,
          q.entries + [Entry(req.opKey, "", req.title, New, Reserved, Some(free), None,
                             q.counter + 1, 1, Some(req.now))])
  }

  lemma NewUpload(q: Queue, cfg: Config, req: Request, occ: Occ, free: int)
    requires |cfg.cal.slots| > 0 && IndexByOp(q.entries, req.opKey).None?
    requires Pruned(q.entries, req.now) == q.entries && Prepare(q, cfg, req) == Prepared(q, occ, [], 0)
    requires occ.Alloc(cfg.cal, MinStart(cfg, req)) == Some(free)
    ensures AfterReserve(q, cfg, req) == (WithNew(q, req, free), Granted(Some(free), [], 0))
  {
    assert q.(entries := q.entries) == q;
    NewEntryGranted(q, cfg, req, free);
  }

  lemma NextUpload(cfg: Config, q: Queue, req: Request)
    requires cfg == DEFAULTS && req.opKey != "" && req.title == "" && req.listing.None?
    requires 2900 <= req.now <= 3480 && Quiet(req.opKey, req.now, q.entries) && q.counter == |q.entries|
    ensures AfterReserve(q, cfg, req) == (WithNew(q, req, 3600), Granted(Some(3600), [], 0))
  {
    hide AfterReserve, Occ.Alloc, Prepare, Pruned;
    assert req == Request(req.opKey, "", req.now, None) && q == Queue(|q.entries|, q.entries);
    assert Pruned(q.entries, req.now) == q.entries && Prepare(q, cfg, req) == Prepared(q, Occ({}, map[]), [], 0) by {
      NothingTaken(req.opKey, req.now, q.entries);
    }
    assert Occ({}, map[]).Alloc(cfg.cal, MinStart(cfg, req)) == Some(3600) by {
      EmptyDayAlloc(req.now);
    }
    NewUpload(q, cfg, req, Occ({}, map[]), 3600);
  }

  /** From an empty queue, with the default settings, two uploads started eight minutes apart
      are promised the same 07:00 slot. */
  lemma BoundaryIsReachable()
    ensures var first := ReserveOp(DEFAULTS, Request("a", "", 3000, None));
            var second := ReserveOp(DEFAULTS, Request("b", "", 3480, None));
            && first.Valid() && second.Valid()
            && !NoSharedSlot(ApplyAll(Queue(0, []), [first, second]).entries)
  {
    hide AfterReserve, Calendar.First, Calendar.IsSlot, Calendar.Day;
    var first := ReserveOp(DEFAULTS, Request("a", "", 3000, None));
    var second := ReserveOp(DEFAULTS, Request("b", "", 3480, None));
    SevenIsFirst(3120);
    NextUpload(DEFAULTS, Queue(0, []), first.req);
    var e := Entry("a", "", "", New, Reserved, Some(3600), None, 1, 1, Some(3000));
    NextUpload(DEFAULTS, Queue(1, [e]), second.req);
    assert [first, second][..1] == [first] && [first][..0] == [];
    assert ApplyAll(Queue(0, []), [first]) == Queue(1, [e]);
    var es := ApplyAll(Queue(0, []), [first, second]).entries;
    assert es[0].Live() && es[1].Live() && es[0].slot == es[1].slot;
  }
}
