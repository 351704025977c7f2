/** What a reservation answers, and what it writes for its operation. */
module PublishAnswers {
  import opened Ordering
  import opened SlotCalendar
  import opened SlotOccupancy
  import opened Replan
  import opened PublishQueue
  import opened PublishRuns
  import opened PublishSlots
  import opened PublishPromises
  import opened PublishTracking

  // ---- the moves of a plan ----

  /** How many of the first `n` videos keep their time. */
  function Unmoved(p: Problem, n: nat): nat
    requires |p.cal.slots| > 0 && n <= |p.vs|
  {
    if n == 0 then 0 else Unmoved(p, n - 1) + (if p.Target(n - 1) == p.vs[n - 1].at then 1 else 0)
  }

  /** The moves come in the order of their targets, and the count is that of the others. */
  lemma {:induction false} MovesInOrder(p: Problem, n: nat)
    requires p.cal.Valid() && n <= |p.vs|
    ensures var (moves, kept) := (p.St(n).plan.moves, p.St(n).plan.kept);
            && (forall j, k :: 0 <= j < k < |moves| ==> moves[j].to < moves[k].to)
            && (forall j :: 0 <= j < |moves| ==> moves[j].to <= p.St(n).floor)
            && |kept| == Unmoved(p, n) && |moves| + |kept| == n
  {
    hide Problem.Decide, Problem.Advance, Problem.Target;
    if n > 0 {
      MovesInOrder(p, n - 1);
      p.PlanStep(n - 1);
      MovedIsLater(p, n - 1);
      FloorGrows(p, n - 1);
    }
  }

  lemma FloorGrows(p: Problem, i: nat)
    requires p.cal.Valid() && i < |p.vs|
    ensures p.St(i).floor <= p.St(i + 1).floor && (p.D(i).Moves? ==> p.St(i + 1).floor == p.Target(i))
  {
    hide Occ.Search, Calendar.IsSlot, Calendar.First;
    if p.minStart < p.vs[i].at {
      p.StepIsLeast(p.St(i).occ, p.St(i).floor, p.vs[i]);
    }
  }

  /** The moves are exactly those of the videos whose target is not their time: from the one to the other. */
  ghost predicate AreMoves(p: Problem, moves: seq<Move>)
    requires |p.cal.slots| > 0
  {
    && (forall m :: m in moves ==>
          exists i :: 0 <= i < |p.vs| && p.Target(i) != p.vs[i].at
                      && m == Move(p.vs[i].id, p.vs[i].title, p.vs[i].at, p.Target(i)))
    && (forall i :: 0 <= i < |p.vs| && p.Target(i) != p.vs[i].at ==>
          Move(p.vs[i].id, p.vs[i].title, p.vs[i].at, p.Target(i)) in moves)
  }

  lemma PlanMoves(p: Problem)
    requires p.cal.Valid()
    ensures AreMoves(p, p.St(|p.vs|).plan.moves)
  {
    hide Problem.St, Problem.D, Problem.Target;
    p.MovesAreTargets(|p.vs|);
    var moves := p.St(|p.vs|).plan.moves;
    forall m | m in moves
      ensures exists i :: 0 <= i < |p.vs| && p.Target(i) != p.vs[i].at
                          && m == Move(p.vs[i].id, p.vs[i].title, p.vs[i].at, p.Target(i))
    {
      var i :| 0 <= i < |p.vs| && p.D(i).Moves? && m == p.MoveOf(i);
      MovedIsLater(p, i);
    }
    forall i | 0 <= i < |p.vs| && p.Target(i) != p.vs[i].at
      ensures Move(p.vs[i].id, p.vs[i].title, p.vs[i].at, p.Target(i)) in moves
    {
      MovedIsLater(p, i);
      assert p.MoveOf(i) in moves;
    }
  }

  // ---- the moves of an answer ----

  /** The answer's moves and count are those prepared. */
  lemma AnswerIsPrepared(q: Queue, cfg: Config, req: Request)
    requires |cfg.cal.slots| > 0
    ensures var (p, a) := (Prepare(q.(entries := Pruned(q.entries, req.now)), cfg, req), AfterReserve(q, cfg, req).1);
            a.Granted? ==> a.moves == p.moves && a.kept == p.kept
  {
    hide Prepare, Pruned, Occ.Alloc, AfterReserve;
    ReservePaths(q, cfg, req);
  }

  lemma PreparedMoves(q: Queue, cfg: Config, req: Request)
    requires |cfg.cal.slots| > 0
    ensures var r := Prepare(q, cfg, req);
            match req.listing
            case None => r.moves == [] && r.kept == 0
            case Some(vids) =>
              var p := PlanOf(cfg, req, LiveOcc(cfg, req, q.entries), vids);
              r.moves == p.St(|p.vs|).plan.moves && r.kept == |p.St(|p.vs|).plan.kept|
  {
    hide Problem.St, LiveOcc, RecordPlan, PlanOf;
  }

  /** Every granted reservation answers with exactly the moves of its plan: one for each listed video whose target is not
      its time, from its time, which is past the earliest start, to the target, a later slot; in the order of the
      targets. The count is that of the other videos. Without a listing there are none of either. */
  lemma AnswerMoves(q: Queue, cfg: Config, req: Request)
    requires ReserveOp(cfg, req).Valid() && AfterReserve(q, cfg, req).1.Granted?
    ensures var a := AfterReserve(q, cfg, req).1;
            match req.listing
            case None => a.moves == [] && a.kept == 0
            case Some(vids) =>
              var p := PlanOf(cfg, req, LiveOcc(cfg, req, Pruned(q.entries, req.now)), vids);
              && multiset(p.vs) == multiset(vids) && AreMoves(p, a.moves)
              && a.kept == Unmoved(p, |p.vs|) && |a.moves| + a.kept == |vids|
              && (forall j, k :: 0 <= j < k < |a.moves| ==> a.moves[j].to < a.moves[k].to)
              && (forall m :: m in a.moves ==> MinStart(cfg, req) < m.from < m.to && cfg.cal.IsSlot(m.to))
  {
    hide Prepare, Pruned, AfterReserve, LiveOcc, Problem.St, Problem.Target, Calendar.IsSlot;
    var es := Pruned(q.entries, req.now);
    AnswerIsPrepared(q, cfg, req);
    PreparedMoves(q.(entries := es), cfg, req);
    if req.listing.Some? {
      var vids := req.listing.value;
      var p := PlanOf(cfg, req, LiveOcc(cfg, req, es), vids);
      PlanForReady(cfg.cal, MinStart(cfg, req), LiveOcc(cfg, req, es), vids);
      assert |p.vs| == |multiset(p.vs)| && |vids| == |multiset(vids)|;
      PlanMoves(p);
      MovesInOrder(p, |p.vs|);
      var moves := AfterReserve(q, cfg, req).1.moves;
      forall m | m in moves ensures MinStart(cfg, req) < m.from < m.to && cfg.cal.IsSlot(m.to) {
        var i :| 0 <= i < |p.vs| && p.Target(i) != p.vs[i].at
                 && m == Move(p.vs[i].id, p.vs[i].title, p.vs[i].at, p.Target(i));
        MovedIsLater(p, i);
      }
    }
  }

  /** For a listing of videos with distinct IDs: each video has exactly one move in the answer, or none and keeps its
      time. */
  lemma OneMoveEach(q: Queue, cfg: Config, req: Request, vids: seq<Video>)
    requires ReserveOp(cfg, req).Valid() && AfterReserve(q, cfg, req).1.Granted?
    requires req.listing == Some(vids) && DistinctIds(vids)
    ensures var moves := AfterReserve(q, cfg, req).1.moves;
            var p := PlanOf(cfg, req, LiveOcc(cfg, req, Pruned(q.entries, req.now)), vids);
            && (forall j, k :: 0 <= j < k < |moves| ==> moves[j].videoId != moves[k].videoId)
            && (forall i :: 0 <= i < |p.vs| ==>
                  (p.Target(i) != p.vs[i].at <==> exists m :: m in moves && m.videoId == p.vs[i].id))
  {
    hide Pruned, AfterReserve, LiveOcc, Calendar.IsSlot, Sort, AreMoves;
    AnswerMoves(q, cfg, req);
    var p := PlanOf(cfg, req, LiveOcc(cfg, req, Pruned(q.entries, req.now)), vids);
    StillDistinct(vids, p.vs);
    OneEach(p, AfterReserve(q, cfg, req).1.moves);
  }

  lemma OneEach(p: Problem, moves: seq<Move>)
    requires |p.cal.slots| > 0 && AreMoves(p, moves) && DistinctIds(p.vs)
    requires forall j, k :: 0 <= j < k < |moves| ==> moves[j].to < moves[k].to
    ensures forall j, k :: 0 <= j < k < |moves| ==> moves[j].videoId != moves[k].videoId
    ensures forall i :: 0 <= i < |p.vs| ==>
              (p.Target(i) != p.vs[i].at <==> exists m :: m in moves && m.videoId == p.vs[i].id)
  {
    hide Problem.Target;
    forall j, k | 0 <= j < k < |moves| ensures moves[j].videoId != moves[k].videoId {
      var a := MovedFrom(p, moves, moves[j]);
      var b := MovedFrom(p, moves, moves[k]);
      assert a != b;
    }
    forall i | 0 <= i < |p.vs|
      ensures p.Target(i) != p.vs[i].at <==> exists m :: m in moves && m.videoId == p.vs[i].id
    {
      if p.Target(i) != p.vs[i].at {
        assert Move(p.vs[i].id, p.vs[i].title, p.vs[i].at, p.Target(i)) in moves;
      } else if m :| m in moves && m.videoId == p.vs[i].id {
        var _ := MovedFrom(p, moves, m);
      }
    }
  }

  lemma MovedFrom(p: Problem, moves: seq<Move>, m: Move) returns (i: nat)
    requires |p.cal.slots| > 0 && AreMoves(p, moves) && m in moves
    ensures i < |p.vs| && p.Target(i) != p.vs[i].at && m == Move(p.vs[i].id, p.vs[i].title, p.vs[i].at, p.Target(i))
  {
    hide Problem.Target;
    i :| 0 <= i < |p.vs| && p.Target(i) != p.vs[i].at
         && m == Move(p.vs[i].id, p.vs[i].title, p.vs[i].at, p.Target(i));
  }

  lemma {:induction false} OnceEach(vids: seq<Video>, v: Video)
    requires DistinctIds(vids)
    ensures multiset(vids)[v] <= 1
  {
    if |vids| > 0 {
      var (front, last) := (vids[..|vids| - 1], vids[|vids| - 1]);
      OnceEach(front, v);
      assert vids == front + [last];
      assert v == last ==> v !in front;
    }
  }

  /** Distinct IDs stay distinct in any arrangement. */
  lemma StillDistinct(a: seq<Video>, b: seq<Video>)
    requires DistinctIds(a) && multiset(a) == multiset(b)
    ensures DistinctIds(b)
  {
    DistinctInAnyOrder(a, b);
    forall i, j | 0 <= i < j < |b| ensures b[i].id != b[j].id {
      OnceEach(a, b[i]);
      BothCount(b, i, j);
    }
  }

  lemma BothCount(b: seq<Video>, i: nat, j: nat)
    requires i < j < |b|
    ensures b[i] == b[j] ==> multiset(b)[b[i]] >= 2
  {
    assert b == b[..j] + [b[j]] + b[j + 1..];
    assert b[..j][i] == b[i];
    assert multiset(b[..j])[b[i]] >= 1;
  }

  // ---- the entry of the operation ----

  /** The entry is still reserved, for a slot past the earliest start. */
  predicate KeepsSlot(e: Entry, start: int) { e.status == Reserved && e.slot.Some? && start < e.slot.value }

  /** A grant leaves the operation one reserved entry with the answered slot: the one it had, with one attempt more, or
      a new one numbered next. */
  lemma GrantedEntry(q: Queue, cfg: Config, req: Request) returns (k: nat)
    requires ReserveOp(cfg, req).Valid() && Inv(q.entries) && AfterReserve(q, cfg, req).1.Granted?
    ensures var (es, r, a) := (Pruned(q.entries, req.now), AfterReserve(q, cfg, req).0, AfterReserve(q, cfg, req).1);
            && k < |r.entries| && a.slot.Some?
            && (forall i :: 0 <= i < |r.entries| ==> (r.entries[i].opKey == req.opKey <==> i == k))
            && var e := r.entries[k];
               && e.status == Reserved && e.videoId == "" && e.slot == a.slot && e.updatedAt == Some(req.now)
               && match IndexByOp(es, req.opKey)
                  case None =>
                    e == Entry(req.opKey, "", req.title, New, Reserved, a.slot, None, r.counter, 1, Some(req.now))
                  case Some(i) =>
                    && SameOrigin(e.(attempts := es[i].attempts), es[i]) && e.attempts == es[i].attempts + 1
                    && e.previous == es[i].previous
                    && e.title == (if KeepsSlot(es[i], MinStart(cfg, req)) then es[i].title else req.title)
                    && (KeepsSlot(es[i], MinStart(cfg, req)) ==> a.slot == es[i].slot)
  {
    hide Prepare, Pruned, Occ.Alloc, AfterReserve, Inv;
    var q0 := q.(entries := Pruned(q.entries, req.now));
    PrunedKeepsInv(q.entries, req.now);
    ReservePaths(q, cfg, req);
    PrepareKeepsOwn(q0, cfg, req);
    PrepareKeepsInv(q0, cfg, req);
    OwnIsUnbound(q0, cfg, req);
    var p := Prepare(q0, cfg, req);
    var free := p.occ.Alloc(cfg.cal, MinStart(cfg, req));
    GrantReplacesOwn(p.queue, cfg, req, free, p.moves, p.kept);
    var oi := IndexByOp(p.queue.entries, req.opKey);
    k := if oi.Some? then oi.value else |p.queue.entries|;
    GrantWrites(p.queue, cfg, req, free, p.moves, p.kept);
    OnlyOwn(p.queue.entries, AfterReserve(q, cfg, req).0.entries, req.opKey, k);
  }

  lemma OnlyOwn(es: seq<Entry>, rs: seq<Entry>, opKey: string, k: nat)
    requires Inv(es) && opKey != "" && k < |rs| && rs[k].opKey == opKey
    requires k == (var oi := IndexByOp(es, opKey); if oi.Some? then oi.value else |es|)
    requires |rs| == (if k < |es| then |es| else |es| + 1) && forall i :: 0 <= i < |es| && i != k ==> rs[i] == es[i]
    ensures forall i :: 0 <= i < |rs| ==> (rs[i].opKey == opKey <==> i == k)
  {
    forall i | 0 <= i < |rs| && i != k ensures rs[i].opKey != opKey {
      if k < |es| {
        assert OneKey(es[if i < k then i else k], es[if i < k then k else i]);
      }
    }
  }

  lemma GrantWrites(q: Queue, cfg: Config, req: Request, free: Option<int>, moves: seq<Move>, kept: nat)
    requires GrantFrom(q, cfg, req, free, moves, kept).1.Granted?
    ensures var (r, a) := GrantFrom(q, cfg, req, free, moves, kept);
            match IndexByOp(q.entries, req.opKey)
            case None =>
              && |r.entries| == |q.entries| + 1
              && r.entries[|q.entries|]
                 == Entry(req.opKey, "", req.title, New, Reserved, a.slot, None, r.counter, 1, Some(req.now))
            case Some(i) =>
              && i < |r.entries|
              && var (e, was) := (r.entries[i], q.entries[i]);
                 && SameOrigin(e.(attempts := was.attempts), was) && e.attempts == was.attempts + 1
                 && e.previous == was.previous && e.videoId == was.videoId
                 && e.title == (if KeepsSlot(was, MinStart(cfg, req)) then was.title else req.title)
                 && (KeepsSlot(was, MinStart(cfg, req)) ==> a.slot == was.slot)
  {
  }

  // ---- adoption ----

  /** The operation has tried to upload before, is not bound, and its slot is that of a listed video under its title. */
  predicate Recognises(e: Entry, req: Request, v: Video) {
    e.opKey == req.opKey && e.videoId == "" && e.attempts > 0 && e.slot == Some(v.at) && Trim(v.title) == Trim(req.title)
  }

  /** A reservation adopts exactly when its retained entry recognises a listed video. */
  lemma AdoptsExactly(q: Queue, cfg: Config, req: Request)
    requires ReserveOp(cfg, req).Valid() && Inv(q.entries)
    ensures var es := Pruned(q.entries, req.now);
            AfterReserve(q, cfg, req).1.Adopted? <==>
            exists e, v :: e in es && req.listing.Some? && v in req.listing.value && Recognises(e, req, v)
  {
    hide Pruned, Prepare, Grant, Trim, Occ.Alloc;
    PrunedKeepsInv(q.entries, req.now);
    var es := Pruned(q.entries, req.now);
    GrantNeverAdopts(Queue(q.counter, es), cfg, req);
    CandidateIsRecognised(es, req);
    assert q.(entries := es) == Queue(q.counter, es);
  }

  lemma GrantNeverAdopts(q0: Queue, cfg: Config, req: Request)
    requires |cfg.cal.slots| > 0
    ensures !Grant(Prepare(q0, cfg, req), cfg, req).1.Adopted?
  {
    hide Prepare, Occ.Alloc;
  }

  lemma CandidateIsRecognised(es: seq<Entry>, req: Request)
    requires Inv(es) && req.opKey != ""
    ensures var oi := IndexByOp(es, req.opKey);
            (oi.Some? && es[oi.value].videoId == "" && Candidate(es, req).Some?) <==>
            exists e, v :: e in es && req.listing.Some? && v in req.listing.value && Recognises(e, req, v)
  {
    hide Trim;
    var oi := IndexByOp(es, req.opKey);
    if e, v :| e in es && req.listing.Some? && v in req.listing.value && Recognises(e, req, v) {
      var own := es[oi.value];
      assert own in es;
      SameKeySameEntry(es, e, own);
      var k := LostUploadIsFirst(req.listing.value, v.at, req.title);
      var j :| 0 <= j < |req.listing.value| && req.listing.value[j] == v;
    }
    if oi.Some? && es[oi.value].videoId == "" && Candidate(es, req).Some? {
      var slot := es[oi.value].slot.value;
      var k := LostUploadIsFirst(req.listing.value, slot, req.title);
      assert es[oi.value] in es && req.listing.value[k] in req.listing.value;
      assert Recognises(es[oi.value], req, req.listing.value[k]);
    }
  }

  /** It adopts the first video it recognises, answers with the entry's slot, and binds the entry to it. */
  lemma AdoptsFirst(q: Queue, cfg: Config, req: Request) returns (e: Entry, k: nat)
    requires ReserveOp(cfg, req).Valid() && Inv(q.entries) && AfterReserve(q, cfg, req).1.Adopted?
    ensures var (r, a) := AfterReserve(q, cfg, req);
            && req.listing.Some? && k < |req.listing.value| && e in Pruned(q.entries, req.now)
            && var vids := req.listing.value;
               && Recognises(e, req, vids[k]) && (forall j :: 0 <= j < k ==> !Recognises(e, req, vids[j]))
               && a == Adopted(e.slot, vids[k].id)
               && e.(videoId := vids[k].id, status := Scheduled, updatedAt := Some(req.now)) in r.entries
  {
    hide Pruned, Prepare, Grant, Trim, Occ.Alloc;
    PrunedKeepsInv(q.entries, req.now);
    var es := Pruned(q.entries, req.now);
    GrantNeverAdopts(Queue(q.counter, es), cfg, req);
    assert q.(entries := es) == Queue(q.counter, es);
    CandidateIsOwn(es, req);
    var oi := IndexByOp(es, req.opKey).value;
    e := es[oi];
    k := LostUploadIsFirst(req.listing.value, e.slot.value, req.title);
    OwnIsAdopted(es, req.listing.value[k].id, req);
  }

  lemma OwnIsAdopted(es: seq<Entry>, videoId: string, req: Request)
    requires Inv(es) && req.opKey != "" && IndexByOp(es, req.opKey).Some?
    ensures es[IndexByOp(es, req.opKey).value].(videoId := videoId, status := Scheduled, updatedAt := Some(req.now))
            in Adopt(es, videoId, req)
  {
    var keep := (e: Entry) => !(e.videoId == videoId && e.opKey != req.opKey);
    var kept := DropVideoExceptOp(es, videoId, req.opKey);
    FilterKeepsInv(keep, es);
    FilterElements(keep, es);
    var own := es[IndexByOp(es, req.opKey).value];
    assert own in es && own in kept;
    var i := IndexByOp(kept, req.opKey).value;
    assert kept[i] in kept;
    SameKeySameEntry(kept, own, kept[i]);
    var r := Adopt(es, videoId, req);
    assert r[i] in r;
  }

  // ---- the other operations, entry by entry ----

  predicate FirstOf(es: seq<Entry>, opKey: string, i: nat)
    requires i < |es|
  {
    es[i].opKey == opKey && forall j :: 0 <= j < i ==> es[j].opKey != opKey
  }

  /** A commit binds the operation's first entry to the video and marks it scheduled; its slot and all else stay. */
  lemma CommitWrites(q: Queue, opKey: string, videoId: string, now: int, i: nat)
    requires i < |q.entries|
    ensures var (r, e) := (AfterCommit(q, opKey, videoId, now), q.entries[i]);
            && r.counter == q.counter && |r.entries| == |q.entries|
            && r.entries[i] == if FirstOf(q.entries, opKey, i)
                               then Entry(opKey, videoId, e.title, e.source, Scheduled, e.slot, e.previous, e.number,
                                          e.attempts, Some(now))
                               else e
  {
  }

  /** A release fails the operation's first entry without a video; a bound one is never touched. */
  lemma ReleaseWrites(q: Queue, opKey: string, now: int, i: nat)
    requires i < |q.entries|
    ensures var (r, e) := (AfterRelease(q, opKey, now), q.entries[i]);
            && r.counter == q.counter && |r.entries| == |q.entries|
            && r.entries[i] == if e.opKey == opKey && e.videoId == ""
                                  && (forall j :: 0 <= j < i ==> !(q.entries[j].opKey == opKey && q.entries[j].videoId == ""))
                               then Entry(opKey, "", e.title, e.source, Failed, e.slot, e.previous, e.number, e.attempts,
                                          Some(now))
                               else e
  {
    var ui := UnboundFrom(q.entries, opKey, 0);
    FirstUnbound(q.entries, opKey, 0);
  }

  lemma {:induction false} FirstUnbound(es: seq<Entry>, opKey: string, i: nat)
    requires i <= |es|
    ensures var r := UnboundFrom(es, opKey, i);
            forall j :: i <= j < (if r.Some? then r.value else |es|) ==> !(es[j].opKey == opKey && es[j].videoId == "")
    decreases |es| - i
  {
    if i < |es| {
      FirstUnbound(es, opKey, i + 1);
    }
  }

  predicate HasOutcome(outs: seq<Outcome>, videoId: string) { exists k :: 0 <= k < |outs| && outs[k].videoId == videoId }

  /** The status of the last outcome of a video. */
  function LastStatus(outs: seq<Outcome>, videoId: string): Status
    requires HasOutcome(outs, videoId)
  {
    if outs[|outs| - 1].videoId == videoId then outs[|outs| - 1].status else LastStatus(outs[..|outs| - 1], videoId)
  }

  /** Outcomes change the entries of their videos only: the last one gives the status, and the previous time is forgotten
      once a move has come through. */
  lemma {:induction false} OutcomesWrite(es: seq<Entry>, outs: seq<Outcome>, now: int, i: nat)
    requires i < |es|
    ensures var (rs, e) := (ApplyOutcomes(es, outs, now), es[i]);
            && |rs| == |es|
            && rs[i] == if !HasOutcome(outs, e.videoId) then e
                        else e.(status := LastStatus(outs, e.videoId), updatedAt := Some(now),
                                previous := if exists k :: 0 <= k < |outs| && outs[k] == Outcome(e.videoId, Scheduled)
                                            then None else e.previous)
  {
    if |outs| > 0 {
      var (front, last) := (outs[..|outs| - 1], outs[|outs| - 1]);
      OutcomesWrite(es, front, now, i);
      assert outs == front + [last];
      assert forall k :: 0 <= k < |front| ==> front[k] == outs[k];
    }
  }

  /** The age limits: a reservation is kept whatever its age; another entry goes once its slot is more than 72 hours past;
      an upload that failed without a video once it has not been touched for more than seven days. */
  lemma PruneAges(es: seq<Entry>, now: int, e: Entry)
    requires |es| <= 400
    ensures e in Pruned(es, now) <==>
            && e in es
            && (e.slot.Some? && e.status != Reserved ==> now - e.slot.value <= 72 * 3600)
            && (e.status == Failed && e.videoId == "" && e.updatedAt.Some? ==> now - e.updatedAt.value <= 7 * 24 * 3600)
  {
    FilterElements(x => Retained(now, x), es);
  }

  // ---- numbers ----

  /** Entries are numbered in the order in which they were made, and the counter is not behind them. */
  ghost predicate Numbered(q: Queue) {
    && (forall i, j :: 0 <= i < j < |q.entries| ==> q.entries[i].number < q.entries[j].number)
    && (forall i :: 0 <= i < |q.entries| ==> q.entries[i].number <= q.counter)
  }

  lemma SameNumbers(q: Queue, r: Queue)
    requires Numbered(q) && r.counter == q.counter && |r.entries| == |q.entries|
    requires forall i :: 0 <= i < |q.entries| ==> r.entries[i].number == q.entries[i].number
    ensures Numbered(r)
  {
  }

  lemma SetVideoNumbers(l: Ledger, id: string, title: string, status: Status, slot: int, previous: Option<int>, now: int)
    requires l.Valid() && Numbered(l.queue)
    ensures Numbered(SetVideo(l, id, title, status, slot, previous, now).queue)
  {
  }

  lemma {:induction false} KeptNumbers(l: Ledger, kept: seq<Video>, now: int)
    requires l.Valid() && Numbered(l.queue)
    ensures Numbered(RecordKept(l, kept, now).queue)
  {
    hide SetVideo, Numbered, Ledger.Valid;
    if |kept| > 0 {
      var (front, v) := (kept[..|kept| - 1], kept[|kept| - 1]);
      KeptNumbers(l, front, now);
      SetVideoNumbers(RecordKept(l, front, now), v.id, v.title, Scheduled, v.at, None, now);
    }
  }

  lemma {:induction false} MovesNumbers(l: Ledger, moves: seq<Move>, now: int)
    requires l.Valid() && Numbered(l.queue)
    ensures Numbered(RecordMoves(l, moves, now).queue)
  {
    hide SetVideo, Numbered, Ledger.Valid;
    if |moves| > 0 {
      var (front, m) := (moves[..|moves| - 1], moves[|moves| - 1]);
      MovesNumbers(l, front, now);
      SetVideoNumbers(RecordMoves(l, front, now), m.videoId, m.title, Pending, m.to, Some(m.from), now);
    }
  }

  lemma FilterNumbers(q: Queue, keep: Entry -> bool)
    requires Numbered(q)
    ensures Numbered(q.(entries := Filter(keep, q.entries)))
  {
    var rel := (a: Entry, b: Entry) => a.number < b.number;
    assert Pairwise(rel, q.entries);
    FilterKeepsPairwise(rel, keep, q.entries);
    FilterElements(keep, q.entries);
    var r := Filter(keep, q.entries);
    forall i, j | 0 <= i < j < |r| ensures r[i].number < r[j].number {
      assert rel(r[i], r[j]);
    }
    forall i | 0 <= i < |r| ensures r[i].number <= q.counter {
      assert r[i] in r;
    }
  }

  lemma PreparedNumbers(q: Queue, cfg: Config, req: Request)
    requires |cfg.cal.slots| > 0 && Numbered(q)
    ensures Numbered(Prepare(q, cfg, req).queue)
  {
    hide Problem.St, LiveOcc, RecordKept, RecordMoves, Numbered, Ledger.Valid;
    var held := q.(entries := StaleReleased(cfg, req, q.entries));
    BoundAreHeld(cfg, req, q.entries);
    SameNumbers(q, held);
    if req.listing.Some? {
      var p := PlanOf(cfg, req, LiveOcc(cfg, req, q.entries), req.listing.value);
      var plan := p.St(|p.vs|).plan;
      var l := Ledger(held, VideoIndex(held.entries));
      IndexIsValid(held);
      KeptNumbers(l, plan.kept, req.now);
      MovesNumbers(RecordKept(l, plan.kept, req.now), plan.moves, req.now);
    }
  }

  lemma IndexIsValid(q: Queue)
    ensures Ledger(q, VideoIndex(q.entries)).Valid()
  {
  }

  lemma GrantNumbers(q: Queue, cfg: Config, req: Request, free: Option<int>, moves: seq<Move>, kept: nat)
    requires Numbered(q)
    ensures Numbered(GrantFrom(q, cfg, req, free, moves, kept).0)
  {
  }

  lemma AdoptNumbers(q: Queue, videoId: string, req: Request)
    requires Numbered(q)
    ensures Numbered(q.(entries := Adopt(q.entries, videoId, req)))
  {
    FilterNumbers(q, (e: Entry) => !(e.videoId == videoId && e.opKey != req.opKey));
    var kept := DropVideoExceptOp(q.entries, videoId, req.opKey);
    SameNumbers(q.(entries := kept), q.(entries := Adopt(q.entries, videoId, req)));
  }

  lemma PrunedNumbers(q: Queue, now: int)
    requires Numbered(q)
    ensures Numbered(q.(entries := Pruned(q.entries, now)))
  {
    FilterNumbers(q, e => Retained(now, e));
  }

  /** Every operation keeps the numbers in order, so no two entries ever share one. */
  lemma StepNumbers(q: Queue, op: Op)
    requires Numbered(q) && op.Valid()
    ensures Numbered(Apply(q, op))
  {
    hide Numbered, Pruned, Prepare, Occ.Alloc, Candidate, GrantFrom, Adopt, ApplyOutcomes, AfterCommit, AfterRelease;
    match op
    case ReserveOp(cfg, req) =>
      var q0 := q.(entries := Pruned(q.entries, req.now));
      PrunedNumbers(q, req.now);
      PreparedNumbers(q0, cfg, req);
      var p := Prepare(q0, cfg, req);
      GrantNumbers(p.queue, cfg, req, p.occ.Alloc(cfg.cal, MinStart(cfg, req)), p.moves, p.kept);
      if Candidate(q0.entries, req).Some? {
        AdoptNumbers(q0, Candidate(q0.entries, req).value.id, req);
      }
    case CommitOp(opKey, videoId, at) => CommitNumbers(q, opKey, videoId, at);
    case ReleaseOp(opKey, at) => ReleaseNumbers(q, opKey, at);
    case OutcomesOp(outs, at) => OutcomeNumbers(q, outs, at);
  }

  lemma CommitNumbers(q: Queue, opKey: string, videoId: string, at: int)
    requires Numbered(q)
    ensures Numbered(AfterCommit(q, opKey, videoId, at))
  {
    SameNumbers(q, AfterCommit(q, opKey, videoId, at));
  }

  lemma ReleaseNumbers(q: Queue, opKey: string, at: int)
    requires Numbered(q)
    ensures Numbered(AfterRelease(q, opKey, at))
  {
    SameNumbers(q, AfterRelease(q, opKey, at));
  }

  lemma OutcomeNumbers(q: Queue, outs: seq<Outcome>, at: int)
    requires Numbered(q)
    ensures Numbered(q.(entries := ApplyOutcomes(q.entries, outs, at)))
  {
    hide ApplyOutcomes, Numbered;
    var rs := ApplyOutcomes(q.entries, outs, at);
    OutcomesTrackOnce(q.entries, outs, at);
    forall i | 0 <= i < |q.entries| ensures rs[i].number == q.entries[i].number {
      OutcomesWrite(q.entries, outs, at, i);
    }
    SameNumbers(q, q.(entries := rs));
  }

  lemma {:induction false} RunsNumber(q: Queue, ops: seq<Op>)
    requires Numbered(q) && forall op :: op in ops ==> op.Valid()
    ensures Numbered(ApplyAll(q, ops))
  {
    hide Numbered, Apply;
    if |ops| > 0 {
      RunsNumber(q, ops[..|ops| - 1]);
      assert ops[|ops| - 1] in ops;
      StepNumbers(ApplyAll(q, ops[..|ops| - 1]), ops[|ops| - 1]);
    }
  }
}
