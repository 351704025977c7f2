/** The persistent publishing queue: slot reservations, their commit and release, and the
    bookkeeping of re-planned videos. */
module PublishQueue {
  import opened Ordering
  import opened SlotCalendar
  import opened SlotOccupancy
  import opened Replan

  const KEEP_PAST := 259200      // 72 hours
  const KEEP_FAILED := 604800    // 7 days
  const MAX_ENTRIES := 400

  datatype Source = New | Existing

  datatype Status = Reserved | Scheduled | Pending | Failed | Skipped

  datatype Entry = Entry(
    opKey: string,             // the upload that created it, "" for a listed video
    videoId: string,           // "" until an upload is known to have succeeded
    title: string,
    source: Source,
    status: Status,
    slot: Option<int>,
    previous: Option<int>,
    number: int,
    attempts: int,
    updatedAt: Option<int>)
  {
    /** A slot promised to an upload that is still in flight. */
    predicate Live() { status.Reserved? && videoId == "" }
  }

  datatype Queue = Queue(counter: int, entries: seq<Entry>)

  datatype Config = Config(cal: Calendar, minLead: int, staleAfter: int)

  datatype Request = Request(opKey: string, title: string, now: int, listing: Option<seq<Video>>)

  datatype Answer =
    | AlreadyDone(slot: Option<int>, videoId: string)
    | Adopted(slot: Option<int>, videoId: string)
    | Granted(slot: Option<int>, moves: seq<Move>, kept: nat)
    | NoFreeSlot

  datatype Outcome = Outcome(videoId: string, status: Status)

  // ---- lookups ----

  /** The first entry of an operation from position `i` on. */
  function IndexFrom(entries: seq<Entry>, opKey: string, i: nat): Option<nat>
    requires i <= |entries|
    ensures var r := IndexFrom(entries, opKey, i);
            && (r.Some? ==> i <= r.value < |entries| && entries[r.value].opKey == opKey)
            && (forall j :: i <= j < (if r.Some? then r.value else |entries|) ==>
                              entries[j].opKey != opKey)
    decreases |entries| - i
  {
    if i == |entries| then None
    else if entries[i].opKey == opKey then Some(i)
    else IndexFrom(entries, opKey, i + 1)
  }

  function IndexByOp(entries: seq<Entry>, opKey: string): Option<nat> {
    IndexFrom(entries, opKey, 0)
  }

  function TrimLeft(s: string): string {
    if |s| > 0 && Space(s[0]) then TrimLeft(s[1..]) else s
  }

  function TrimRight(s: string): string {
    if |s| > 0 && Space(s[|s| - 1]) then TrimRight(s[..|s| - 1]) else s
  }

  function Trim(s: string): string { TrimRight(TrimLeft(s)) }

  // ---- prune ----

  predicate Retained(now: int, e: Entry) {
    && !(e.slot.Some? && e.slot.value < now - KEEP_PAST && !e.status.Reserved?)
    && !(e.status.Failed? && e.videoId == ""
         && e.updatedAt.Some? && e.updatedAt.value < now - KEEP_FAILED)
  }

  function Newest(entries: seq<Entry>): seq<Entry> {
    if |entries| > MAX_ENTRIES then entries[|entries| - MAX_ENTRIES..] else entries
  }

  function Pruned(entries: seq<Entry>, now: int): seq<Entry> {
    Newest(Filter(e => Retained(now, e), entries))
  }

  // ---- adoption of an upload whose response was lost ----

  predicate SameUpload(v: Video, slot: int, title: string) { v.at == slot && Trim(v.title) == Trim(title) }

  /** The first listed video that sits on `slot` under the same title. */
  function LostUpload(vids: seq<Video>, slot: int, title: string): Option<Video> {
    if |vids| == 0 then None
    else if SameUpload(vids[0], slot, title) then Some(vids[0])
    else LostUpload(vids[1..], slot, title)
  }

  /** It is the one at the least position, and there is none only if no listed video qualifies. */
  lemma {:induction false} LostUploadIsFirst(vids: seq<Video>, slot: int, title: string) returns (i: nat)
    ensures i <= |vids| && forall j :: 0 <= j < i ==> !SameUpload(vids[j], slot, title)
    ensures LostUpload(vids, slot, title)
         == if i < |vids| && SameUpload(vids[i], slot, title) then Some(vids[i]) else None
    ensures LostUpload(vids, slot, title).None? ==> i == |vids|
  {
    hide SameUpload;
    i := 0;
    if |vids| > 0 && !SameUpload(vids[0], slot, title) {
      i := LostUploadIsFirst(vids[1..], slot, title);
      i := i + 1;
    }
  }

  function Candidate(entries: seq<Entry>, req: Request): Option<Video> {
    var oi := IndexByOp(entries, req.opKey);
    if oi.Some? && entries[oi.value].attempts > 0 && req.listing.Some? && entries[oi.value].slot.Some?
    then LostUpload(req.listing.value, entries[oi.value].slot.value, req.title)
    else None
  }

  /** No entry but the operation's own may track the video. */
  function DropVideoExceptOp(entries: seq<Entry>, videoId: string, opKey: string): seq<Entry> {
    Filter((e: Entry) => !(e.videoId == videoId && e.opKey != opKey), entries)
  }

  function Adopt(entries: seq<Entry>, videoId: string, req: Request): seq<Entry> {
    var kept := DropVideoExceptOp(entries, videoId, req.opKey);
    match IndexByOp(kept, req.opKey)
    case Some(i) => kept[i := kept[i].(videoId := videoId, status := Scheduled, updatedAt := Some(req.now))]
    case None => kept
  }

  // ---- slots promised to uploads in flight ----

  /** Another operation's reservation that has not been touched for too long. */
  predicate Stale(cfg: Config, req: Request, e: Entry) {
    && e.Live() && e.opKey != req.opKey
    && (e.updatedAt.None? || req.now - e.updatedAt.value > cfg.staleAfter)
  }

  function AfterStale(cfg: Config, req: Request, e: Entry): Entry {
    if Stale(cfg, req, e) then e.(status := Failed, updatedAt := Some(req.now)) else e
  }

  function StaleReleased(cfg: Config, req: Request, entries: seq<Entry>): seq<Entry> {
    Map(e => AfterStale(cfg, req, e), entries)
  }

  lemma TakeLiveStep(cal: Calendar, minStart: int, es: seq<Entry>, i: nat)
    requires i < |es|
    ensures var before := TakeLive(cal, minStart, Occ({}, map[]), es[..i]);
            TakeLive(cal, minStart, Occ({}, map[]), es[..i + 1])
            == if es[i].Live() && es[i].slot.Some? && minStart < es[i].slot.value
               then before.Take(cal, es[i].slot.value) else before
  {
    assert es[..i + 1][..i] == es[..i];
  }

  lemma NothingTakenYet(cal: Calendar, minStart: int)
    ensures TakeLive(cal, minStart, Occ({}, map[]), []) == Occ({}, map[])
  {
  }

  lemma StaleAt(cfg: Config, req: Request, entries: seq<Entry>)
    ensures |StaleReleased(cfg, req, entries)| == |entries|
    ensures forall i :: 0 <= i < |entries| ==>
                          StaleReleased(cfg, req, entries)[i] == AfterStale(cfg, req, entries[i])
  {
  }

  /** Takes the slots of live reservations that lie strictly after `minStart`. */
  function TakeLive(cal: Calendar, minStart: int, occ: Occ, entries: seq<Entry>): Occ {
    if |entries| == 0 then occ
    else
      var before := TakeLive(cal, minStart, occ, entries[..|entries| - 1]);
      var e := entries[|entries| - 1];
      if e.Live() && e.slot.Some? && minStart < e.slot.value then before.Take(cal, e.slot.value) else before
  }

  function TakeIfLater(cal: Calendar, now: int, occ: Occ, t: Option<int>): Occ {
    if t.Some? && now < t.value then occ.Take(cal, t.value) else occ
  }

  /** Takes every future time already known for a video: target and previous time. */
  function TakeKnown(cal: Calendar, now: int, occ: Occ, entries: seq<Entry>): Occ {
    if |entries| == 0 then occ
    else
      var before := TakeKnown(cal, now, occ, entries[..|entries| - 1]);
      var e := entries[|entries| - 1];
      if e.videoId == "" then before
      else TakeIfLater(cal, now, TakeIfLater(cal, now, before, e.slot), e.previous)
  }

  // ---- recording a plan ----

  datatype Ledger = Ledger(queue: Queue, index: map<string, nat>)
  {
    ghost predicate Valid() {
      forall id :: id in index ==> index[id] < |queue.entries| && queue.entries[index[id]].videoId == id
    }
  }

  function VideoIndex(entries: seq<Entry>): (m: map<string, nat>)
    ensures forall id :: id in m ==> m[id] < |entries| && entries[m[id]].videoId == id && id != ""
  {
    if |entries| == 0 then map[]
    else
      var n := |entries| - 1;
      var m := VideoIndex(entries[..n]);
      if entries[n].videoId != "" then m[entries[n].videoId := n] else m
  }

  /** Updates the entry of a video, or appends one for a video not tracked yet. */
  function SetVideo(l: Ledger, id: string, title: string, status: Status, slot: int,
                    previous: Option<int>, now: int): Ledger
    requires l.Valid()
    ensures SetVideo(l, id, title, status, slot, previous, now).Valid()
  {
    var found := id in l.index;
    var es := l.queue.entries;
    var i := if found then l.index[id] else |es|;
    var e := if found then es[i]
             else Entry("", id, "", Existing, status, None, None, l.queue.counter + 1, 0, None);
    var e' := e.(title := title, status := status, slot := Some(slot), previous := previous,
                 updatedAt := Some(now));
    if found then l.(queue := l.queue.(entries := es[i := e']))
    else Ledger(Queue(l.queue.counter + 1, es + [e']), l.index[id := i])
  }

  function RecordKept(l: Ledger, kept: seq<Video>, now: int): Ledger
    requires l.Valid()
    ensures RecordKept(l, kept, now).Valid()
  {
    if |kept| == 0 then l
    else
      var v := kept[|kept| - 1];
      SetVideo(RecordKept(l, kept[..|kept| - 1], now), v.id, v.title, Scheduled, v.at, None, now)
  }

  function RecordMoves(l: Ledger, moves: seq<Move>, now: int): Ledger
    requires l.Valid()
    ensures RecordMoves(l, moves, now).Valid()
  {
    if |moves| == 0 then l
    else
      var m := moves[|moves| - 1];
      SetVideo(RecordMoves(l, moves[..|moves| - 1], now),
               m.videoId, m.title, Pending, m.to, Some(m.from), now)
  }

  function RecordPlan(q: Queue, plan: Plan, now: int): Queue {
    RecordMoves(RecordKept(Ledger(q, VideoIndex(q.entries)), plan.kept, now), plan.moves, now).queue
  }

  // ---- the whole decision ----

  /** The queue and the occupancy after reservations, listing and plan are accounted for. */
  datatype Prepared = Prepared(queue: Queue, occ: Occ, moves: seq<Move>, kept: nat)

  function PlanOf(cfg: Config, req: Request, occ: Occ, vids: seq<Video>): Problem {
    PlanFor(cfg.cal, req.now + cfg.minLead, occ, vids)
  }

  function LiveOcc(cfg: Config, req: Request, entries: seq<Entry>): Occ {
    TakeLive(cfg.cal, req.now + cfg.minLead, Occ({}, map[]), StaleReleased(cfg, req, entries))
  }

  function Prepare(q: Queue, cfg: Config, req: Request): Prepared
    requires |cfg.cal.slots| > 0
  {
    var held := q.(entries := StaleReleased(cfg, req, q.entries));
    var occ := LiveOcc(cfg, req, q.entries);
    match req.listing
    case Some(vids) =>
      var p := PlanOf(cfg, req, occ, vids);
      var st := p.St(|p.vs|);
      Prepared(RecordPlan(held, st.plan, req.now), st.occ, st.plan.moves, |st.plan.kept|)
    case None =>
      Prepared(held, TakeKnown(cfg.cal, req.now, occ, held.entries), [], 0)
  }

  /** The operation already holds a slot that is still far enough away. */
  predicate Holds(e: Entry, minStart: int) {
    e.status.Reserved? && e.slot.Some? && minStart < e.slot.value
  }

  function GrantFrom(q: Queue, cfg: Config, req: Request, free: Option<int>,
                     moves: seq<Move>, kept: nat): (Queue, Answer)
  {
    var es := q.entries;
    var oi := IndexByOp(es, req.opKey);
    if oi.Some? && Holds(es[oi.value], req.now + cfg.minLead) then
      var e := es[oi.value];
      (q.(entries := es[oi.value := e.(attempts := e.attempts + 1, updatedAt := Some(req.now))]),
       Granted(e.slot, moves, kept))
    else if free.None? then (q, NoFreeSlot)
    else if oi.None? then
      (Queue(q.counter + 1,
             es + [Entry(req.opKey, "", req.title, New, Reserved, free, None, q.counter + 1, 1,
                         Some(req.now))]),
       Granted(free, moves, kept))
    else
      var e := es[oi.value];
      (q.(entries := es[oi.value := e.(title := req.title, status := Reserved, slot := free,
                                      attempts := e.attempts + 1, updatedAt := Some(req.now))]),
       Granted(free, moves, kept))
  }

  function Grant(p: Prepared, cfg: Config, req: Request): (Queue, Answer)
    requires |cfg.cal.slots| > 0
  {
    GrantFrom(p.queue, cfg, req, p.occ.Alloc(cfg.cal, req.now + cfg.minLead), p.moves, p.kept)
  }

  function AfterReserve(q: Queue, cfg: Config, req: Request): (Queue, Answer)
    requires |cfg.cal.slots| > 0
  {
    AfterReservePruned(q.(entries := Pruned(q.entries, req.now)), cfg, req)
  }

  function AfterReservePruned(q0: Queue, cfg: Config, req: Request): (Queue, Answer)
    requires |cfg.cal.slots| > 0
  {
    var oi := IndexByOp(q0.entries, req.opKey);
    if oi.Some? && q0.entries[oi.value].videoId != "" then
      (q0, AlreadyDone(q0.entries[oi.value].slot, q0.entries[oi.value].videoId))
    else
      var v := Candidate(q0.entries, req);
      if v.Some? then
        (q0.(entries := Adopt(q0.entries, v.value.id, req)),
         Adopted(q0.entries[IndexByOp(q0.entries, req.opKey).value].slot, v.value.id))
      else Grant(Prepare(q0, cfg, req), cfg, req)
  }

  function AfterCommit(q: Queue, opKey: string, videoId: string, now: int): Queue {
    match IndexByOp(q.entries, opKey)
    case Some(i) =>
      q.(entries := q.entries[i := q.entries[i].(videoId := videoId, status := Scheduled,
                                                 updatedAt := Some(now))])
    case None => q
  }

  /** The first unbound entry of an operation from position `i` on. */
  function UnboundFrom(entries: seq<Entry>, opKey: string, i: nat): Option<nat>
    requires i <= |entries|
    ensures var r := UnboundFrom(entries, opKey, i);
            && (r.Some? ==> i <= r.value < |entries| && entries[r.value].opKey == opKey
                            && entries[r.value].videoId == "")
            && (r.None? ==> forall j :: i <= j < |entries| && entries[j].opKey == opKey ==> entries[j].videoId != "")
    decreases |entries| - i
  {
    if i == |entries| then None
    else if entries[i].opKey == opKey && entries[i].videoId == "" then Some(i)
    else UnboundFrom(entries, opKey, i + 1)
  }

  function AfterRelease(q: Queue, opKey: string, now: int): Queue {
    match UnboundFrom(q.entries, opKey, 0)
    case Some(i) => q.(entries := q.entries[i := q.entries[i].(status := Failed, updatedAt := Some(now))])
    case None => q
  }

  function AfterOutcome(o: Outcome, now: int, e: Entry): Entry {
    if e.videoId != o.videoId then e
    else e.(status := o.status, updatedAt := Some(now),
            previous := if o.status.Scheduled? then None else e.previous)
  }

  function ApplyOutcomes(entries: seq<Entry>, outs: seq<Outcome>, now: int): seq<Entry> {
    if |outs| == 0 then entries
    else Map(e => AfterOutcome(outs[|outs| - 1], now, e),
             ApplyOutcomes(entries, outs[..|outs| - 1], now))
  }

  // ---- the object ----

  class PubState {
    var counter: int
    var entries: seq<Entry>

    ghost function State(): Queue
      reads this
    {
      Queue(counter, entries)
    }

    constructor ()
      ensures State() == Queue(0, [])
    {
      counter, entries := 0, [];
    }

    method Prune(now: int)
      modifies this`entries
      ensures entries == Pruned(old(entries), now)
    {
      var kept: seq<Entry> := [];
      for i := 0 to |entries|
        invariant entries == old(entries)
        invariant kept == Filter(e => Retained(now, e), entries[..i])
      {
        FilterStep(e => Retained(now, e), entries, i);
        var e := entries[i];
        if e.slot.Some? && e.slot.value < now - KEEP_PAST && !e.status.Reserved? {
          continue;
        }
        if e.status.Failed? && e.videoId == "" {
          if e.updatedAt.Some? && e.updatedAt.value < now - KEEP_FAILED {
            continue;
          }
        }
        kept := kept + [e];
      }
      assert entries[..|entries|] == entries;
      if |kept| > MAX_ENTRIES {
        kept := kept[|kept| - MAX_ENTRIES..];
      }
      entries := kept;
    }

    method DropVideoExcept(videoId: string, opKey: string)
      modifies this`entries
      ensures entries == DropVideoExceptOp(old(entries), videoId, opKey)
    {
      var kept: seq<Entry> := [];
      for i := 0 to |entries|
        invariant entries == old(entries)
        invariant kept == DropVideoExceptOp(entries[..i], videoId, opKey)
      {
        FilterStep((e: Entry) => !(e.videoId == videoId && e.opKey != opKey), entries, i);
        if entries[i].videoId == videoId && entries[i].opKey != opKey {
          continue;
        }
        kept := kept + [entries[i]];
      }
      assert entries[..|entries|] == entries;
      entries := kept;
    }

    /** Marks abandoned reservations failed and takes the slots of the live ones. */
    method HoldLive(cfg: Config, req: Request, occ: SlotOccupancy)
      requires occ.State() == Occ({}, map[]) && occ.cal == cfg.cal
      modifies this`entries, occ
      ensures entries == StaleReleased(cfg, req, old(entries))
      ensures occ.State() == LiveOcc(cfg, req, old(entries))
    {
      hide Occ.Take, Occ.TakeLocked, Occ.Count, Calendar.Day, StaleReleased, TakeLive, Map;
      NothingTakenYet(cfg.cal, req.now + cfg.minLead);
      var minStart := req.now + cfg.minLead;
      StaleAt(cfg, req, entries);
      ghost var held := StaleReleased(cfg, req, entries);
      for i := 0 to |entries|
        invariant |entries| == |held|
        invariant forall j :: 0 <= j < |held| ==> entries[j] == if j < i then held[j] else old(entries)[j]
        invariant occ.State() == TakeLive(cfg.cal, minStart, Occ({}, map[]), held[..i])
      {
        var e := entries[i];
        TakeLiveStep(cfg.cal, minStart, held, i);
        if e.status != Reserved || e.videoId != "" {
          continue;
        }
        if e.opKey != req.opKey {
          if e.updatedAt.None? || req.now - e.updatedAt.value > cfg.staleAfter {
            entries := entries[i := e.(status := Failed, updatedAt := Some(req.now))];
            continue;
          }
        }
        if e.slot.Some? && minStart < e.slot.value {
          occ.Take(e.slot.value);
        }
      }
      assert held[..|held|] == held;
    }

    method HoldKnown(cfg: Config, req: Request, occ: SlotOccupancy)
      requires occ.cal == cfg.cal
      modifies occ
      ensures occ.State() == TakeKnown(cfg.cal, req.now, old(occ.State()), entries)
    {
      for i := 0 to |entries|
        invariant occ.State() == TakeKnown(cfg.cal, req.now, old(occ.State()), entries[..i])
      {
        var e := entries[i];
        assert entries[..i + 1][..i] == entries[..i];
        if e.videoId == "" {
          continue;
        }
        if e.slot.Some? && req.now < e.slot.value {
          occ.Take(e.slot.value);
        }
        if e.previous.Some? && req.now < e.previous.value {
          occ.Take(e.previous.value);
        }
      }
      assert entries[..|entries|] == entries;
    }

    method Set(ghost l: Ledger, index: map<string, nat>, id: string, title: string, status: Status,
               slot: int, previous: Option<int>, now: int) returns (index': map<string, nat>)
      requires l.Valid() && l == Ledger(State(), index)
      modifies this
      ensures Ledger(State(), index') == SetVideo(l, id, title, status, slot, previous, now)
    {
      index' := index;
      var i := |entries|;
      if id in index {
        i := index[id];
      } else {
        counter := counter + 1;
        entries := entries + [Entry("", id, "", Existing, status, None, None, counter, 0, None)];
        index' := index[id := i];
      }
      entries := entries[i := entries[i].(title := title, status := status, slot := Some(slot),
                                          previous := previous, updatedAt := Some(now))];
    }

    method Record(plan: Plan, now: int)
      modifies this
      ensures State() == RecordPlan(old(State()), plan, now)
    {
      hide SetVideo;
      var index := VideoIndex(entries);
      ghost var l := Ledger(State(), index);
      ghost var l0 := l;
      for i := 0 to |plan.kept|
        invariant l.Valid() && l == Ledger(State(), index)
        invariant l == RecordKept(l0, plan.kept[..i], now)
      {
        var v := plan.kept[i];
        assert plan.kept[..i + 1][..i] == plan.kept[..i];
        index := Set(l, index, v.id, v.title, Scheduled, v.at, None, now);
        l := Ledger(State(), index);
      }
      assert plan.kept[..|plan.kept|] == plan.kept;
      for i := 0 to |plan.moves|
        invariant l.Valid() && l == Ledger(State(), index)
        invariant l == RecordMoves(RecordKept(l0, plan.kept, now), plan.moves[..i], now)
      {
        var m := plan.moves[i];
        assert plan.moves[..i + 1][..i] == plan.moves[..i];
        index := Set(l, index, m.videoId, m.title, Pending, m.to, Some(m.from), now);
        l := Ledger(State(), index);
      }
      assert plan.moves[..|plan.moves|] == plan.moves;
    }

    method FindLostUpload(vids: seq<Video>, slot: int, title: string) returns (r: Option<Video>)
      ensures r == LostUpload(vids, slot, title)
      ensures r.None? ==> forall j :: 0 <= j < |vids| ==> !SameUpload(vids[j], slot, title)
      ensures r.Some? ==> exists k :: 0 <= k < |vids| && r.value == vids[k] && SameUpload(vids[k], slot, title)
                                      && forall j :: 0 <= j < k ==> !SameUpload(vids[j], slot, title)
    {
      for k := 0 to |vids|
        invariant forall j :: 0 <= j < k ==> !SameUpload(vids[j], slot, title)
        invariant LostUpload(vids, slot, title) == LostUpload(vids[k..], slot, title)
      {
        var v := vids[k];
        if v.at == slot && Trim(v.title) == Trim(title) {
          return Some(v);
        }
      }
      return None;
    }

    method AdoptVideo(videoId: string, req: Request)
      requires IndexByOp(entries, req.opKey).Some?
      modifies this`entries
      ensures entries == Adopt(old(entries), videoId, req)
    {
      OwnEntrySurvivesDrop(entries, videoId, req.opKey);
      DropVideoExcept(videoId, req.opKey);
      var oi := IndexByOp(entries, req.opKey).value;
      entries := entries[oi := entries[oi].(videoId := videoId, status := Scheduled,
                                            updatedAt := Some(req.now))];
    }

    method PlanAndRecord(cfg: Config, req: Request, occ: SlotOccupancy, vids: seq<Video>)
      returns (moves: seq<Move>, kept: nat)
      requires cfg.cal.Valid() && occ.cal == cfg.cal
      modifies this, occ
      ensures var p := PlanOf(cfg, req, old(occ.State()), vids);
              var st := p.St(|p.vs|);
              && occ.State() == st.occ && moves == st.plan.moves && kept == |st.plan.kept|
              && State() == RecordPlan(old(State()), st.plan, req.now)
    {
      hide Problem.St, RecordPlan, Sort;
      var plan := PlanExisting(occ, req.now + cfg.minLead, vids);
      Record(plan, req.now);
      moves, kept := plan.moves, |plan.kept|;
    }

    /** Accounts for reservations in flight and for the channel's listing. */
    method PrepareSlots(cfg: Config, req: Request) returns (occ: SlotOccupancy, moves: seq<Move>, kept: nat)
      requires cfg.cal.Valid()
      modifies this
      ensures fresh(occ) && occ.cal == cfg.cal
      ensures Prepared(State(), occ.State(), moves, kept) == Prepare(old(State()), cfg, req)
    {
      occ := new SlotOccupancy(cfg.cal);
      HoldLive(cfg, req, occ);
      moves, kept := [], 0;
      if req.listing.Some? {
        moves, kept := PlanAndRecord(cfg, req, occ, req.listing.value);
      } else {
        HoldKnown(cfg, req, occ);
      }
    }

    /** The operation's own slot: the one it already holds, or the next free one. */
    method GrantSlot(cfg: Config, req: Request, occ: SlotOccupancy, moves: seq<Move>, kept: nat)
      returns (a: Answer)
      requires cfg.cal.Valid() && occ.cal == cfg.cal
      modifies this, occ
      ensures (State(), a) == Grant(Prepared(old(State()), old(occ.State()), moves, kept), cfg, req)
    {
      hide Occ.Search, Occ.Free, Occ.Take, Occ.LeastFree, Nth, Calendar.First, Calendar.IsSlot, Calendar.Valid;
      var oi := IndexByOp(entries, req.opKey);
      if oi.Some? {
        var e := entries[oi.value];
        if e.slot.Some? && e.status.Reserved? && req.now + cfg.minLead < e.slot.value {
          entries := entries[oi.value := e.(attempts := e.attempts + 1, updatedAt := Some(req.now))];
          return Granted(e.slot, moves, kept);
        }
      }
      var slot := occ.Allocate(req.now + cfg.minLead);
      if slot.None? {
        return NoFreeSlot;
      }
      if oi.None? {
        counter := counter + 1;
        entries := entries + [Entry(req.opKey, "", req.title, New, Reserved, slot, None, counter, 1,
                                    Some(req.now))];
      } else {
        var e := entries[oi.value];
        entries := entries[oi.value := e.(title := req.title, status := Reserved, slot := slot,
                                          attempts := e.attempts + 1, updatedAt := Some(req.now))];
      }
      return Granted(slot, moves, kept);
    }

    /** The whole allocation decision, made while the state is locked. */
    method Reserve(cfg: Config, req: Request) returns (a: Answer)
      requires cfg.cal.Valid()
      modifies this
      ensures (State(), a) == AfterReserve(old(State()), cfg, req)
    {
      Prune(req.now);
      var oi := IndexByOp(entries, req.opKey);
      if oi.Some? && entries[oi.value].videoId != "" {
        return AlreadyDone(entries[oi.value].slot, entries[oi.value].videoId);
      }
      if oi.Some? && entries[oi.value].attempts > 0 && req.listing.Some? {
        var slot := entries[oi.value].slot;
        if slot.Some? {
          var v := FindLostUpload(req.listing.value, slot.value, req.title);
          if v.Some? {
            AdoptVideo(v.value.id, req);
            return Adopted(slot, v.value.id);
          }
        }
      }
      var occ, moves, kept := PrepareSlots(cfg, req);
      a := GrantSlot(cfg, req, occ, moves, kept);
    }

    method Commit(opKey: string, videoId: string, now: int)
      modifies this`entries
      ensures State() == AfterCommit(old(State()), opKey, videoId, now)
    {
      for i := 0 to |entries|
        invariant entries == old(entries)
        invariant IndexByOp(entries, opKey) == IndexFrom(entries, opKey, i)
      {
        if entries[i].opKey == opKey {
          entries := entries[i := entries[i].(videoId := videoId, status := Scheduled, updatedAt := Some(now))];
          return;
        }
      }
    }

    method Release(opKey: string, now: int)
      modifies this`entries
      ensures State() == AfterRelease(old(State()), opKey, now)
    {
      for i := 0 to |entries|
        invariant entries == old(entries)
        invariant UnboundFrom(entries, opKey, 0) == UnboundFrom(entries, opKey, i)
      {
        if entries[i].opKey == opKey && entries[i].videoId == "" {
          entries := entries[i := entries[i].(status := Failed, updatedAt := Some(now))];
          return;
        }
      }
    }

    method RecordOutcomes(outs: seq<Outcome>, now: int)
      modifies this`entries
      ensures entries == ApplyOutcomes(old(entries), outs, now)
    {
      for k := 0 to |outs|
        invariant entries == ApplyOutcomes(old(entries), outs[..k], now)
      {
        assert outs[..k + 1][..k] == outs[..k];
        ghost var before := entries;
        var o := outs[k];
        for i := 0 to |entries|
          invariant |entries| == |before|
          invariant forall j :: 0 <= j < |before| ==>
                                  entries[j] == if j < i then AfterOutcome(o, now, before[j]) else before[j]
        {
          var e := entries[i];
          if e.videoId != o.videoId {
            continue;
          }
          entries := entries[i := e.(status := o.status, updatedAt := Some(now),
                                     previous := if o.status.Scheduled? then None else e.previous)];
        }
        assert entries == Map(e => AfterOutcome(o, now, e), before);
      }
      assert outs[..|outs|] == outs;
    }
  }

  lemma OwnEntrySurvivesDrop(entries: seq<Entry>, videoId: string, opKey: string)
    requires IndexByOp(entries, opKey).Some?
    ensures IndexByOp(DropVideoExceptOp(entries, videoId, opKey), opKey).Some?
  {
    var i := IndexByOp(entries, opKey).value;
    FilterElements((e: Entry) => !(e.videoId == videoId && e.opKey != opKey), entries);
    assert entries[i] in DropVideoExceptOp(entries, videoId, opKey);
  }
}
