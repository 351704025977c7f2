/** Entries bound to a video: when a video is tracked twice, and when a fresh slot is one that a bound entry has. */
module PublishTracking {
  import opened Ordering
  import opened SlotCalendar
  import opened SlotOccupancy
  import opened Replan
  import opened PublishQueue
  import opened PublishRuns
  import opened PublishSlots
  import opened PublishPromises
  import opened PublishEviction

  /** No video has two entries. */
  ghost predicate TrackedOnce(es: seq<Entry>) {
    forall i, j :: 0 <= i < j < |es| && es[i].videoId == es[j].videoId ==> es[i].videoId == ""
  }

  // ---- what recording a plan writes ----

  /** What is written for a video; with a previous time it is still to be moved. */
  datatype Write = Write(id: string, title: string, slot: int, previous: Option<int>, now: int)

  function KeptWrites(kept: seq<Video>, now: int): seq<Write> {
    Map((v: Video) => Write(v.id, v.title, v.at, None, now), kept)
  }

  function MoveWrites(moves: seq<Move>, now: int): seq<Write> {
    Map((m: Move) => Write(m.videoId, m.title, m.to, Some(m.from), now), moves)
  }

  function Writes(plan: Plan, now: int): seq<Write> { KeptWrites(plan.kept, now) + MoveWrites(plan.moves, now) }

  ghost predicate Writing(ws: seq<Write>, id: string) { exists w :: w in ws && w.id == id }

  /** The index leads to the last entry of every tracked video. */
  lemma {:induction false} IndexLeadsToLast(es: seq<Entry>)
    ensures forall i :: 0 <= i < |es| && es[i].videoId != "" ==>
              var m := VideoIndex(es);
              es[i].videoId in m && i <= m[es[i].videoId]
  {
    if |es| > 0 {
      IndexLeadsToLast(es[..|es| - 1]);
    }
  }

  /** The entry shows what was written. */
  predicate Shows(e: Entry, w: Write) {
    && e.videoId == w.id && e.title == w.title && e.slot == Some(w.slot) && e.previous == w.previous
    && e.updatedAt == Some(w.now) && e.status == if w.previous.None? then Scheduled else Pending
  }

  /** The entry shows something that was written for its video. */
  ghost predicate WrittenEntry(e: Entry, ws: seq<Write>) { e.videoId != "" && exists w :: w in ws && Shows(e, w) }

  /** What a write never touches. */
  predicate SameOrigin(a: Entry, b: Entry) {
    a.opKey == b.opKey && a.source == b.source && a.number == b.number && a.attempts == b.attempts
  }

  /** An entry made for a listed video. */
  predicate ForListed(e: Entry) { e.opKey == "" && e.source.Existing? && e.attempts == 0 }

  /** The entry that a write for its video would change. */
  predicate Indexed(l: Ledger, i: nat)
    requires i < |l.queue.entries|
  {
    var id := l.queue.entries[i].videoId;
    id in l.index && l.index[id] == i
  }

  /** The ledger after some writes: only the indexed entries of written videos are changed, to a slot written for
      them, and new entries are for written videos. */
  ghost predicate Wrote(l: Ledger, r: Ledger, ws: seq<Write>) {
    var (es, rs) := (l.queue.entries, r.queue.entries);
    && r.Valid() && |es| <= |rs|
    && (forall i :: 0 <= i < |es| ==> rs[i].videoId == es[i].videoId && SameOrigin(es[i], rs[i]))
    && (forall i :: |es| <= i < |rs| ==> ForListed(rs[i]))
    && (forall i :: 0 <= i < |es| && !(Writing(ws, es[i].videoId) && Indexed(l, i)) ==> rs[i] == es[i])
    && (forall i :: |es| <= i < |rs| ==> WrittenEntry(rs[i], ws))
    && (forall id :: id in l.index ==> id in r.index && r.index[id] == l.index[id])
    && (forall id :: id in r.index ==> id in l.index || r.index[id] >= |es|)
    && (forall w :: w in ws ==> w.id in r.index && WrittenEntry(rs[r.index[w.id]], ws))
  }

  lemma WroteNothing(l: Ledger)
    requires l.Valid()
    ensures Wrote(l, l, [])
  {
  }

  /** What one write does: one entry changes, or is added. */
  ghost predicate OneWrite(r: Ledger, r': Ledger, w: Write) {
    var (rs, rs') := (r.queue.entries, r'.queue.entries);
    var at := if w.id in r.index then r.index[w.id] else |rs|;
    && at <= |rs| && |rs'| == (if at < |rs| then |rs| else |rs| + 1)
    && Shows(rs'[at], w) && (if at < |rs| then SameOrigin(rs[at], rs'[at]) else ForListed(rs'[at]))
    && (forall i :: 0 <= i < |rs| && i != at ==> rs'[i] == rs[i])
    && r'.index == r.index[w.id := at]
  }

  lemma SetVideoWrites(r: Ledger, id: string, title: string, status: Status, slot: int, previous: Option<int>, now: int)
    requires r.Valid() && status == if previous.None? then Scheduled else Pending
    ensures OneWrite(r, SetVideo(r, id, title, status, slot, previous, now), Write(id, title, slot, previous, now))
  {
  }

  lemma MoreWrites(ws: seq<Write>, w: Write)
    ensures w in ws + [w] && forall x :: x in ws + [w] <==> x in ws || x == w
    ensures forall id :: Writing(ws + [w], id) <==> Writing(ws, id) || id == w.id
    ensures forall e: Entry :: WrittenEntry(e, ws) ==> WrittenEntry(e, ws + [w])
  {
    forall id ensures Writing(ws + [w], id) <==> Writing(ws, id) || id == w.id {
      if Writing(ws, id) {
        var y :| y in ws && y.id == id;
        assert y in ws + [w];
      }
      assert w in ws + [w];
    }
    forall e: Entry | WrittenEntry(e, ws) ensures WrittenEntry(e, ws + [w]) {
      var y :| y in ws && Shows(e, y);
      assert y in ws + [w];
    }
  }

  lemma WroteOne(l: Ledger, r: Ledger, ws: seq<Write>, r': Ledger, w: Write)
    requires l.Valid() && Wrote(l, r, ws) && w.id != "" && OneWrite(r, r', w) && r'.Valid()
    ensures Wrote(l, r', ws + [w])
  {
    hide Writing, WrittenEntry, Ledger.Valid, Shows;
    assert forall e: Entry :: Shows(e, w) ==> e.videoId == w.id by {
      ShownId(w);
    }
    MoreWrites(ws, w);
    WriteFits(r', ws + [w], w);
    IndexedAt(l, w.id);
    var rs' := r'.queue.entries;
    forall x | x in ws + [w] ensures x.id in r'.index && r'.index[x.id] < |rs'| && WrittenEntry(rs'[r'.index[x.id]], ws + [w]) {
      ValidAt(r', x.id);
      ValidAt(r, x.id);
    }
  }

  lemma WriteFits(r': Ledger, ws: seq<Write>, w: Write)
    requires w in ws && w.id != ""
    ensures forall e: Entry :: Shows(e, w) ==> WrittenEntry(e, ws)
  {
  }

  lemma ShownId(w: Write)
    ensures forall e: Entry :: Shows(e, w) ==> e.videoId == w.id
  {
  }

  lemma IndexedAt(l: Ledger, id: string)
    requires l.Valid()
    ensures id in l.index ==> l.index[id] < |l.queue.entries| && l.queue.entries[l.index[id]].videoId == id
                              && Indexed(l, l.index[id])
  {
  }

  lemma ValidAt(l: Ledger, id: string)
    requires l.Valid()
    ensures id in l.index ==> l.index[id] < |l.queue.entries| && l.queue.entries[l.index[id]].videoId == id
  {
  }

  lemma {:induction false} KeptIsWritten(l: Ledger, kept: seq<Video>, now: int)
    requires l.Valid() && forall v :: v in kept ==> v.id != ""
    ensures Wrote(l, RecordKept(l, kept, now), KeptWrites(kept, now))
  {
    hide Wrote, SetVideo, OneWrite, Ledger.Valid;
    if |kept| == 0 {
      WroteNothing(l);
      assert KeptWrites(kept, now) == [];
    } else {
      var (front, v) := (kept[..|kept| - 1], kept[|kept| - 1]);
      KeptIsWritten(l, front, now);
      var r := RecordKept(l, front, now);
      SetVideoWrites(r, v.id, v.title, Scheduled, v.at, None, now);
      var w := Write(v.id, v.title, v.at, None, now);
      WroteOne(l, r, KeptWrites(front, now), RecordKept(l, kept, now), w);
      assert KeptWrites(kept, now) == KeptWrites(front, now) + [w];
    }
  }

  lemma {:induction false} MovesAreWritten(l: Ledger, r: Ledger, ws: seq<Write>, moves: seq<Move>, now: int)
    requires l.Valid() && r.Valid() && Wrote(l, r, ws) && forall m :: m in moves ==> m.videoId != ""
    ensures Wrote(l, RecordMoves(r, moves, now), ws + MoveWrites(moves, now))
  {
    hide Wrote, SetVideo, OneWrite, Ledger.Valid;
    if |moves| == 0 {
      assert ws + MoveWrites(moves, now) == ws;
    } else {
      var (front, m) := (moves[..|moves| - 1], moves[|moves| - 1]);
      MovesAreWritten(l, r, ws, front, now);
      var k := RecordMoves(r, front, now);
      SetVideoWrites(k, m.videoId, m.title, Pending, m.to, Some(m.from), now);
      var w := Write(m.videoId, m.title, m.to, Some(m.from), now);
      WroteOne(l, k, ws + MoveWrites(front, now), RecordMoves(r, moves, now), w);
      assert MoveWrites(moves, now) == MoveWrites(front, now) + [w];
      assert ws + MoveWrites(front, now) + [w] == ws + MoveWrites(moves, now);
    }
  }

  /** Recording a plan makes the plan's writes. */
  lemma PlanIsWritten(q: Queue, plan: Plan, now: int) returns (r: Ledger)
    requires forall v :: v in plan.kept ==> v.id != ""
    requires forall m :: m in plan.moves ==> m.videoId != ""
    ensures var l := Ledger(q, VideoIndex(q.entries));
            l.Valid() && Wrote(l, r, Writes(plan, now)) && r.queue == RecordPlan(q, plan, now)
  {
    hide Wrote;
    var l := Ledger(q, VideoIndex(q.entries));
    KeptIsWritten(l, plan.kept, now);
    r := RecordKept(l, plan.kept, now);
    MovesAreWritten(l, r, KeptWrites(plan.kept, now), plan.moves, now);
    r := RecordMoves(r, plan.moves, now);
  }

  // ---- the writes of a plan are its targets ----

  lemma {:induction false} KeptStay(p: Problem, n: nat)
    requires p.cal.Valid() && n <= |p.vs|
    ensures forall v :: v in p.St(n).plan.kept ==> exists i :: 0 <= i < n && v == p.vs[i] && !p.D(i).Moves?
    ensures forall i :: 0 <= i < n && !p.D(i).Moves? ==> p.vs[i] in p.St(n).plan.kept
  {
    hide Problem.Decide, Problem.Advance, Problem.D, Problem.Target;
    if n > 0 {
      KeptStay(p, n - 1);
      p.PlanStep(n - 1);
    }
  }

  /** A video's target differs from its time exactly if it is moved. */
  lemma MovedIsLater(p: Problem, i: nat)
    requires p.cal.Valid() && i < |p.vs|
    ensures p.D(i).Moves? <==> p.Target(i) != p.vs[i].at
    ensures p.D(i).Moves? ==> p.minStart < p.vs[i].at < p.Target(i) && p.cal.IsSlot(p.Target(i)) && p.St(i).floor < p.Target(i)
  {
    hide Problem.St, Occ.Search, Calendar.IsSlot, Calendar.First;
    if p.minStart < p.vs[i].at {
      p.StepIsLeast(p.St(i).occ, p.St(i).floor, p.vs[i]);
    }
  }

  /** What the plan writes for a video. */
  function TargetWrite(p: Problem, i: nat, now: int): Write
    requires |p.cal.slots| > 0 && i < |p.vs|
  {
    var (v, t) := (p.vs[i], p.Target(i));
    Write(v.id, v.title, t, if t == v.at then None else Some(v.at), now)
  }

  /** Every video is written, with its target, and nothing else is. */
  lemma WritesAreTargets(p: Problem, now: int)
    requires p.cal.Valid()
    ensures forall w :: w in Writes(p.St(|p.vs|).plan, now) ==> exists i :: 0 <= i < |p.vs| && w == TargetWrite(p, i, now)
    ensures forall i :: 0 <= i < |p.vs| ==> TargetWrite(p, i, now) in Writes(p.St(|p.vs|).plan, now)
  {
    hide Problem.Decide, Problem.Advance, Problem.St, Problem.D;
    var plan := p.St(|p.vs|).plan;
    var ws := Writes(plan, now);
    KeptStay(p, |p.vs|);
    p.MovesAreTargets(|p.vs|);
    forall w | w in ws ensures exists i :: 0 <= i < |p.vs| && w == TargetWrite(p, i, now) {
      var j :| 0 <= j < |ws| && ws[j] == w;
      if j < |plan.kept| {
        assert plan.kept[j] in plan.kept;
        var i :| 0 <= i < |p.vs| && plan.kept[j] == p.vs[i] && !p.D(i).Moves?;
        MovedIsLater(p, i);
        assert w == TargetWrite(p, i, now);
      } else {
        var m := plan.moves[j - |plan.kept|];
        assert m in plan.moves;
        var i :| 0 <= i < |p.vs| && p.D(i).Moves? && m == p.MoveOf(i);
        MovedIsLater(p, i);
        assert w == TargetWrite(p, i, now);
      }
    }
    forall i | 0 <= i < |p.vs| ensures TargetWrite(p, i, now) in ws {
      MovedIsLater(p, i);
      if p.D(i).Moves? {
        assert p.MoveOf(i) in plan.moves;
        var j :| 0 <= j < |plan.moves| && plan.moves[j] == p.MoveOf(i);
        assert MoveWrites(plan.moves, now)[j] == TargetWrite(p, i, now);
        assert ws[|plan.kept| + j] == TargetWrite(p, i, now);
      } else {
        var j :| 0 <= j < |plan.kept| && plan.kept[j] == p.vs[i];
        assert ws[j] == TargetWrite(p, i, now);
      }
    }
  }

  // ---- a fresh slot and the bound entries ----

  ghost predicate InListing(vids: seq<Video>, id: string) { exists v :: v in vids && v.id == id }

  /** The last entry of its video, the one that a listing brings up to date. */
  ghost predicate LastOf(es: seq<Entry>, i: nat)
    requires i < |es|
  {
    forall j :: i < j < |es| ==> es[j].videoId != es[i].videoId
  }

  lemma IndexedIsLast(q: Queue, i: nat)
    requires i < |q.entries| && q.entries[i].videoId != ""
    ensures Indexed(Ledger(q, VideoIndex(q.entries)), i) <==> LastOf(q.entries, i)
  {
    IndexLeadsToLast(q.entries);
  }

  lemma ListedAreWritten(p: Problem, now: int, vids: seq<Video>, id: string)
    requires p.cal.Valid() && multiset(p.vs) == multiset(vids)
    ensures Writing(Writes(p.St(|p.vs|).plan, now), id) <==> InListing(vids, id)
  {
    hide Problem.St, Problem.Target, Writes;
    WritesAreTargets(p, now);
    var ws := Writes(p.St(|p.vs|).plan, now);
    if Writing(ws, id) {
      var w :| w in ws && w.id == id;
      var i :| 0 <= i < |p.vs| && w == TargetWrite(p, i, now);
      assert p.vs[i] in multiset(p.vs);
      assert p.vs[i] in vids;
    }
    if InListing(vids, id) {
      var v :| v in vids && v.id == id;
      assert v in multiset(vids);
      assert v in p.vs;
      var i :| 0 <= i < |p.vs| && p.vs[i] == v;
      assert TargetWrite(p, i, now) in ws;
    }
  }

  lemma BoundAreHeld(cfg: Config, req: Request, es: seq<Entry>)
    ensures var held := StaleReleased(cfg, req, es);
            |held| == |es| && forall i :: 0 <= i < |es| ==>
              && held[i].videoId == es[i].videoId && SameOrigin(held[i], es[i])
              && held[i] == if Stale(cfg, req, es[i]) then es[i].(status := Failed, updatedAt := Some(req.now)) else es[i]
  {
    StaleAt(cfg, req, es);
  }

  /** The ledger behind a preparation with a listing. */
  lemma PreparedIsWritten(q: Queue, cfg: Config, req: Request) returns (r: Ledger)
    requires ReserveOp(cfg, req).Valid() && req.listing.Some?
    ensures var held := q.(entries := StaleReleased(cfg, req, q.entries));
            var p := PlanOf(cfg, req, LiveOcc(cfg, req, q.entries), req.listing.value);
            var l := Ledger(held, VideoIndex(held.entries));
            && l.Valid() && Wrote(l, r, Writes(p.St(|p.vs|).plan, req.now)) && r.queue == Prepare(q, cfg, req).queue
            && p.cal.Valid() && multiset(p.vs) == multiset(req.listing.value)
  {
    hide Wrote, Problem.St, Writes, LiveOcc, RecordPlan;
    var held := q.(entries := StaleReleased(cfg, req, q.entries));
    var p := PlanOf(cfg, req, LiveOcc(cfg, req, q.entries), req.listing.value);
    PlanForReady(cfg.cal, MinStart(cfg, req), LiveOcc(cfg, req, q.entries), req.listing.value);
    PlanHasIds(p, req.listing.value);
    r := PlanIsWritten(held, p.St(|p.vs|).plan, req.now);
  }

  /** The entry of a listed video: its target, whether it is still to be moved there, and from when. */
  ghost predicate TracksTarget(p: Problem, e: Entry, now: int)
    requires |p.cal.slots| > 0
  {
    exists i :: 0 <= i < |p.vs| && Shows(e, TargetWrite(p, i, now))
  }

  /** The entries after a preparation, one by one: brought up to date by the listing, new, released because they were
      stale, or as before. */
  lemma PreparedEntry(q: Queue, cfg: Config, req: Request, k: nat)
    requires ReserveOp(cfg, req).Valid() && req.listing.Some?
    requires k < |Prepare(q, cfg, req).queue.entries|
    ensures var (es, e) := (q.entries, Prepare(q, cfg, req).queue.entries[k]);
            var p := PlanOf(cfg, req, LiveOcc(cfg, req, es), req.listing.value);
            && (k < |es| ==> SameOrigin(e, es[k]) && e.videoId == es[k].videoId)
            && if k < |es| && !(es[k].videoId != "" && InListing(req.listing.value, es[k].videoId) && LastOf(es, k))
               then e == if Stale(cfg, req, es[k]) then es[k].(status := Failed, updatedAt := Some(req.now)) else es[k]
               else e.videoId != "" && TracksTarget(p, e, req.now) && (k >= |es| ==> ForListed(e))
    ensures |q.entries| <= |Prepare(q, cfg, req).queue.entries|
  {
    hide Problem.St, Problem.Target, Prepare, LiveOcc, PlanOf, InListing, Writing, LastOf, Indexed, Writes, Shows, Stale,
      TargetWrite;
    var r := PreparedIsWritten(q, cfg, req);
    BoundAreHeld(cfg, req, q.entries);
    var held := q.(entries := StaleReleased(cfg, req, q.entries));
    var l := Ledger(held, VideoIndex(held.entries));
    var p := PlanOf(cfg, req, LiveOcc(cfg, req, q.entries), req.listing.value);
    var ws := Writes(p.St(|p.vs|).plan, req.now);
    WritesAreTargets(p, req.now);
    if k < |held.entries| && held.entries[k].videoId != "" {
      var id := held.entries[k].videoId;
      ListedAreWritten(p, req.now, req.listing.value, id);
      IndexedIsLast(held, k);
      SameLast(q.entries, held.entries, k);
      WrittenAtIndex(l, r, ws, k);
    }
    if k < |held.entries| && held.entries[k].videoId == "" {
      NotIndexed(held, k);
    }
    if WrittenEntry(r.queue.entries[k], ws) {
      var w :| w in ws && Shows(r.queue.entries[k], w);
    }
  }

  lemma SameLast(es: seq<Entry>, held: seq<Entry>, k: nat)
    requires k < |es| == |held| && forall i :: 0 <= i < |es| ==> held[i].videoId == es[i].videoId
    ensures LastOf(es, k) <==> LastOf(held, k)
  {
  }

  lemma NotIndexed(q: Queue, i: nat)
    requires i < |q.entries| && q.entries[i].videoId == ""
    ensures !Indexed(Ledger(q, VideoIndex(q.entries)), i)
  {
  }

  lemma WrittenAtIndex(l: Ledger, r: Ledger, ws: seq<Write>, k: nat)
    requires Wrote(l, r, ws) && k < |l.queue.entries|
    ensures Writing(ws, l.queue.entries[k].videoId) && Indexed(l, k) ==> WrittenEntry(r.queue.entries[k], ws)
  {
    if Writing(ws, l.queue.entries[k].videoId) && Indexed(l, k) {
      var w :| w in ws && w.id == l.queue.entries[k].videoId;
    }
  }

  /** A bound entry that a listing does not bring up to date: its video is not listed, or a later entry tracks it. */
  ghost predicate Unlisted(es: seq<Entry>, vids: seq<Video>, i: nat)
    requires i < |es|
  {
    es[i].videoId != "" && !(InListing(vids, es[i].videoId) && LastOf(es, i))
  }

  ghost predicate HasBound(es: seq<Entry>, slot: int) { exists e :: e in es && e.videoId != "" && e.slot == Some(slot) }

  /** With a listing, a fresh slot is one that an entry bound to a video has, exactly if the entry is not brought up to
      date by the listing. The allocator does not look at such entries: the listing is fetched before the queue is
      locked, so an upload committed in between is one of them. Without a listing it never happens. */
  lemma BoundClashExactly(q: Queue, cfg: Config, req: Request)
    requires ReserveOp(cfg, req).Valid() && |q.entries| <= MAX_ENTRIES && FreshGrant(Prepare(q, cfg, req), cfg, req)
    ensures var (p, es) := (Prepare(q, cfg, req), q.entries);
            var s := p.occ.Alloc(cfg.cal, MinStart(cfg, req)).value;
            match req.listing
            case Some(vids) =>
              HasBound(p.queue.entries, s) <==> exists i :: 0 <= i < |es| && es[i].slot == Some(s) && Unlisted(es, vids, i)
            case None => 0 < cfg.minLead ==> !HasBound(p.queue.entries, s)
  {
    hide Prepare, Occ.Alloc, PlanOf, LiveOcc, InListing, LastOf;
    var (rs, es) := (Prepare(q, cfg, req).queue.entries, q.entries);
    var s := Prepare(q, cfg, req).occ.Alloc(cfg.cal, MinStart(cfg, req)).value;
    if req.listing.Some? {
      if HasBound(rs, s) {
        var e :| e in rs && e.videoId != "" && e.slot == Some(s);
        var k :| 0 <= k < |rs| && rs[k] == e;
        PreparedEntry(q, cfg, req, k);
        NotATarget(q, cfg, req);
        assert k < |es| && es[k].slot == Some(s) && Unlisted(es, req.listing.value, k);
      }
      if i :| 0 <= i < |es| && es[i].slot == Some(s) && Unlisted(es, req.listing.value, i) {
        PreparedSize(q, cfg, req);
        PreparedEntry(q, cfg, req, i);
        assert rs[i] in rs;
      }
    } else if 0 < cfg.minLead {
      forall e | e in rs && e.videoId != "" ensures e.slot != Some(s) {
        var k :| 0 <= k < |rs| && rs[k] == e;
        UnlistedEntry(q, cfg, req, k);
        FreshSlotAvoidsKnown(q, cfg, req, e);
      }
    }
  }

  lemma PreparedSize(q: Queue, cfg: Config, req: Request)
    requires ReserveOp(cfg, req).Valid()
    ensures |q.entries| <= |Prepare(q, cfg, req).queue.entries|
  {
    PrepareEvolves(q, cfg, req);
  }

  lemma NotATarget(q: Queue, cfg: Config, req: Request)
    requires ReserveOp(cfg, req).Valid() && |q.entries| <= MAX_ENTRIES && FreshGrant(Prepare(q, cfg, req), cfg, req)
    requires req.listing.Some?
    ensures var p := PlanOf(cfg, req, LiveOcc(cfg, req, q.entries), req.listing.value);
            forall i :: 0 <= i < |p.vs| ==> Prepare(q, cfg, req).occ.Alloc(cfg.cal, MinStart(cfg, req)) != Some(p.Target(i))
  {
    hide Prepare, Occ.Alloc, LiveOcc, Problem.Target;
    var p := PlanOf(cfg, req, LiveOcc(cfg, req, q.entries), req.listing.value);
    forall i | 0 <= i < |p.vs| ensures Prepare(q, cfg, req).occ.Alloc(cfg.cal, MinStart(cfg, req)) != Some(p.Target(i)) {
      FreshSlotAvoidsListed(q, cfg, req, i);
    }
  }

  lemma UnlistedEntry(q: Queue, cfg: Config, req: Request, k: nat)
    requires ReserveOp(cfg, req).Valid() && req.listing.None? && k < |Prepare(q, cfg, req).queue.entries|
    ensures var e := Prepare(q, cfg, req).queue.entries[k];
            e.videoId != "" ==> e in q.entries
  {
    BoundAreHeld(cfg, req, q.entries);
  }

  // ---- one entry a video ----

  /** The ledger's index knows every tracked video. */
  ghost predicate Complete(l: Ledger) {
    l.Valid() && forall i :: 0 <= i < |l.queue.entries| && l.queue.entries[i].videoId != "" ==>
                   l.queue.entries[i].videoId in l.index
  }

  lemma SetVideoTracksOnce(l: Ledger, id: string, title: string, status: Status, slot: int, previous: Option<int>, now: int)
    requires Complete(l) && TrackedOnce(l.queue.entries) && id != "" && status == if previous.None? then Scheduled else Pending
    ensures var r := SetVideo(l, id, title, status, slot, previous, now);
            Complete(r) && TrackedOnce(r.queue.entries)
  {
    hide SetVideo;
    var r := SetVideo(l, id, title, status, slot, previous, now);
    SetVideoWrites(l, id, title, status, slot, previous, now);
    var (es, rs) := (l.queue.entries, r.queue.entries);
    forall i | 0 <= i < |es| ensures rs[i].videoId == es[i].videoId {
    }
  }

  lemma {:induction false} KeptTrackOnce(l: Ledger, kept: seq<Video>, now: int)
    requires l.Valid() && Complete(l) && TrackedOnce(l.queue.entries) && forall v :: v in kept ==> v.id != ""
    ensures var r := RecordKept(l, kept, now); Complete(r) && TrackedOnce(r.queue.entries)
  {
    hide SetVideo, TrackedOnce, Complete;
    if |kept| > 0 {
      var (front, v) := (kept[..|kept| - 1], kept[|kept| - 1]);
      KeptTrackOnce(l, front, now);
      SetVideoTracksOnce(RecordKept(l, front, now), v.id, v.title, Scheduled, v.at, None, now);
    }
  }

  lemma {:induction false} MovesTrackOnce(l: Ledger, moves: seq<Move>, now: int)
    requires l.Valid() && Complete(l) && TrackedOnce(l.queue.entries) && forall m :: m in moves ==> m.videoId != ""
    ensures var r := RecordMoves(l, moves, now); Complete(r) && TrackedOnce(r.queue.entries)
  {
    hide SetVideo, TrackedOnce, Complete;
    if |moves| > 0 {
      var (front, m) := (moves[..|moves| - 1], moves[|moves| - 1]);
      MovesTrackOnce(l, front, now);
      SetVideoTracksOnce(RecordMoves(l, front, now), m.videoId, m.title, Pending, m.to, Some(m.from), now);
    }
  }

  /** Every step tracks as many videos as before only once, except a commit. */
  lemma SameVideos(es: seq<Entry>, rs: seq<Entry>)
    requires |rs| == |es| && forall i :: 0 <= i < |es| ==> rs[i].videoId == es[i].videoId
    ensures TrackedOnce(rs) <==> TrackedOnce(es)
  {
  }

  lemma PrepareTracksOnce(q: Queue, cfg: Config, req: Request)
    requires ReserveOp(cfg, req).Valid() && TrackedOnce(q.entries)
    ensures TrackedOnce(Prepare(q, cfg, req).queue.entries)
  {
    hide TrackedOnce, Problem.St, LiveOcc, SetVideo;
    var held := q.(entries := StaleReleased(cfg, req, q.entries));
    BoundAreHeld(cfg, req, q.entries);
    SameVideos(q.entries, held.entries);
    if req.listing.Some? {
      var p := PlanOf(cfg, req, LiveOcc(cfg, req, q.entries), req.listing.value);
      PlanForReady(cfg.cal, MinStart(cfg, req), LiveOcc(cfg, req, q.entries), req.listing.value);
      PlanHasIds(p, req.listing.value);
      var plan := p.St(|p.vs|).plan;
      var l := Ledger(held, VideoIndex(held.entries));
      IndexLeadsToLast(held.entries);
      KeptTrackOnce(l, plan.kept, req.now);
      MovesTrackOnce(RecordKept(l, plan.kept, req.now), plan.moves, req.now);
    }
  }

  lemma GrantTracksOnce(q: Queue, cfg: Config, req: Request, free: Option<int>, moves: seq<Move>, kept: nat)
    requires TrackedOnce(q.entries)
    ensures TrackedOnce(GrantFrom(q, cfg, req, free, moves, kept).0.entries)
  {
  }

  lemma FilterTracksOnce(keep: Entry -> bool, es: seq<Entry>)
    requires TrackedOnce(es)
    ensures TrackedOnce(Filter(keep, es))
  {
    var rel := (a: Entry, b: Entry) => a.videoId == b.videoId ==> a.videoId == "";
    assert Pairwise(rel, es);
    FilterKeepsPairwise(rel, keep, es);
    var r := Filter(keep, es);
    forall i, j | 0 <= i < j < |r| ensures rel(r[i], r[j]) {
    }
  }

  lemma PrunedTracksOnce(es: seq<Entry>, now: int)
    requires TrackedOnce(es)
    ensures TrackedOnce(Pruned(es, now))
  {
    FilterTracksOnce(e => Retained(now, e), es);
  }

  /** Adoption drops the other entries of the video first. */
  lemma AdoptTracksOnce(es: seq<Entry>, videoId: string, req: Request)
    requires Inv(es) && TrackedOnce(es) && req.opKey != ""
    ensures TrackedOnce(Adopt(es, videoId, req))
  {
    var keep := (e: Entry) => !(e.videoId == videoId && e.opKey != req.opKey);
    var kept := DropVideoExceptOp(es, videoId, req.opKey);
    FilterTracksOnce(keep, es);
    FilterKeepsInv(keep, es);
    FilterElements(keep, es);
    var oi := IndexByOp(kept, req.opKey);
    if oi.Some? {
      forall j | 0 <= j < |kept| && j != oi.value ensures kept[j].videoId != videoId {
        assert kept[j] in kept && keep(kept[j]);
        assert OneKey(kept[if j < oi.value then j else oi.value], kept[if j < oi.value then oi.value else j]);
      }
    }
  }

  /** A commit of a video that another entry tracks already. */
  ghost predicate SecondTracking(q: Queue, op: Op) {
    op.CommitOp? && op.videoId != "" &&
    var oi := IndexByOp(q.entries, op.opKey);
    oi.Some? && exists j :: 0 <= j < |q.entries| && j != oi.value && q.entries[j].videoId == op.videoId
  }

  lemma CommitTracksExactly(q: Queue, opKey: string, videoId: string, at: int)
    requires TrackedOnce(q.entries)
    ensures TrackedOnce(AfterCommit(q, opKey, videoId, at).entries) <==> !SecondTracking(q, CommitOp(opKey, videoId, at))
  {
    var oi := IndexByOp(q.entries, opKey);
    var r := AfterCommit(q, opKey, videoId, at).entries;
    if SecondTracking(q, CommitOp(opKey, videoId, at)) {
      var j :| 0 <= j < |q.entries| && j != oi.value && q.entries[j].videoId == videoId;
      assert r[j].videoId == r[oi.value].videoId == videoId;
    }
  }

  lemma {:induction false} OutcomesTrackOnce(es: seq<Entry>, outs: seq<Outcome>, now: int)
    ensures var r := ApplyOutcomes(es, outs, now);
            |r| == |es| && forall i :: 0 <= i < |es| ==> r[i].videoId == es[i].videoId
  {
    if |outs| > 0 {
      OutcomesTrackOnce(es, outs[..|outs| - 1], now);
    }
  }

  /** After one operation every video is still tracked once, except exactly after such a commit. */
  lemma StepTracksExactly(q: Queue, op: Op)
    requires Inv(q.entries) && TrackedOnce(q.entries) && op.Valid()
    ensures TrackedOnce(Apply(q, op).entries) <==> !SecondTracking(q, op)
  {
    hide TrackedOnce, AfterReserve, Pruned, Prepare, ApplyOutcomes, AfterCommit, Grants, Occ.Alloc, Inv, GrantFrom, Adopt, Candidate;
    match op
    case ReserveOp(cfg, req) => ReserveTracksOnce(q, cfg, req);
    case CommitOp(opKey, videoId, at) => CommitTracksExactly(q, opKey, videoId, at);
    case ReleaseOp(opKey, at) => SameVideos(q.entries, AfterRelease(q, opKey, at).entries);
    case OutcomesOp(outs, at) =>
      OutcomesTrackOnce(q.entries, outs, at);
      SameVideos(q.entries, ApplyOutcomes(q.entries, outs, at));
  }

  lemma ReserveTracksOnce(q: Queue, cfg: Config, req: Request)
    requires Inv(q.entries) && TrackedOnce(q.entries) && ReserveOp(cfg, req).Valid()
    ensures TrackedOnce(Apply(q, ReserveOp(cfg, req)).entries)
  {
    hide TrackedOnce, Pruned, Prepare, Occ.Alloc, Inv, GrantFrom, Adopt, Candidate;
    var q0 := q.(entries := Pruned(q.entries, req.now));
    PrunedTracksOnce(q.entries, req.now);
    PrunedKeepsInv(q.entries, req.now);
    PrepareTracksOnce(q0, cfg, req);
    var p := Prepare(q0, cfg, req);
    GrantTracksOnce(p.queue, cfg, req, p.occ.Alloc(cfg.cal, MinStart(cfg, req)), p.moves, p.kept);
    if Candidate(q0.entries, req).Some? {
      AdoptTracksOnce(q0.entries, Candidate(q0.entries, req).value.id, req);
    }
  }

  /** Over every run: no video is ever tracked twice exactly if no upload is committed with a video that the queue
      tracks already. */
  lemma {:induction false} RunsTrackExactly(q: Queue, ops: seq<Op>)
    requires Inv(q.entries) && TrackedOnce(q.entries) && forall op :: op in ops ==> op.Valid()
    ensures (forall k :: 0 <= k <= |ops| ==> TrackedOnce(ApplyAll(q, ops[..k]).entries))
            <==> (forall k :: 0 <= k < |ops| ==> !SecondTracking(ApplyAll(q, ops[..k]), ops[k]))
  {
    hide TrackedOnce, SecondTracking, Apply, ApplyAll, Inv;
    if |ops| == 0 {
      assert ops[..0] == [];
      assert ApplyAll(q, []) == q by {
        AppliedNothing(q);
      }
    } else {
      var n := |ops| - 1;
      var front := ops[..n];
      RunsTrackExactly(q, front);
      forall k | 0 <= k <= n ensures front[..k] == ops[..k] {
      }
      assert ops[..n + 1] == ops;
      RunsKeepInv(q, front);
      if TrackedOnce(ApplyAll(q, front).entries) {
        assert ops[n] in ops;
        StepTracksExactly(ApplyAll(q, front), ops[n]);
        AppliedLast(q, ops);
      }
    }
  }

  lemma AppliedNothing(q: Queue)
    ensures ApplyAll(q, []) == q
  {
  }

  lemma AppliedLast(q: Queue, ops: seq<Op>)
    requires |ops| > 0 && forall op :: op in ops ==> op.Valid()
    ensures ops[|ops| - 1].Valid() && ApplyAll(q, ops) == Apply(ApplyAll(q, ops[..|ops| - 1]), ops[|ops| - 1])
  {
    assert ops[|ops| - 1] in ops;
  }

  // ---- what a reservation does to bound entries ----

  lemma GrantKeepsKeys(before: seq<Entry>, q: Queue, cfg: Config, req: Request, free: Option<int>, moves: seq<Move>, kept: nat)
    requires KeysKept(before, q.entries)
    ensures KeysKept(before, GrantFrom(q, cfg, req, free, moves, kept).0.entries)
  {
    var es := GrantFrom(q, cfg, req, free, moves, kept).0.entries;
    forall x | x in before ensures exists y :: y in es && y.opKey == x.opKey {
      var z :| z in q.entries && z.opKey == x.opKey;
      var i :| 0 <= i < |q.entries| && q.entries[i] == z;
      assert es[i].opKey == x.opKey;
    }
  }

  ghost predicate Bound(es: seq<Entry>, opKey: string, videoId: string) {
    exists y :: y in es && y.opKey == opKey && y.videoId == videoId
  }

  /** A retained entry of an operation stays bound to its video exactly unless the reservation adopts that very video
      for another operation. */
  lemma BoundUnlessAdopted(q: Queue, cfg: Config, req: Request, x: Entry)
    requires Inv(q.entries) && ReserveOp(cfg, req).Valid()
    requires x in Pruned(q.entries, req.now) && x.opKey != "" && x.videoId != ""
    ensures var (q', a) := AfterReserve(q, cfg, req);
            Bound(q'.entries, x.opKey, x.videoId) <==> !(a.Adopted? && a.videoId == x.videoId && x.opKey != req.opKey)
  {
    hide AfterReserve, Pruned, Prepare, Grant, Grants, Inv, BindingsKept, NoSharedSlot, Bound;
    PrunedKeepsInv(q.entries, req.now);
    var q0 := q.(entries := Pruned(q.entries, req.now));
    ReserveKeeps(q, cfg, req);
    ReservePaths(q, cfg, req);
    PrunedFirst(q, cfg, req);
    if Grants(q0, req) {
      GrantKeepsBound(q0, cfg, req, x);
    } else {
      NoGrantBound(q0, cfg, req, x);
    }
  }

  lemma GrantKeepsBound(q0: Queue, cfg: Config, req: Request, x: Entry)
    requires Inv(q0.entries) && ReserveOp(cfg, req).Valid() && x in q0.entries && x.opKey != "" && x.videoId != ""
    requires BindingsKept(q0.entries, Grant(Prepare(q0, cfg, req), cfg, req).0.entries)
    ensures Bound(Grant(Prepare(q0, cfg, req), cfg, req).0.entries, x.opKey, x.videoId)
  {
    hide Prepare, Occ.Alloc, GrantFrom, Inv, KeysKept, BindingsKept;
    var p := Prepare(q0, cfg, req);
    PrepareKeepsInv(q0, cfg, req);
    var free := p.occ.Alloc(cfg.cal, MinStart(cfg, req));
    GrantKeepsKeys(q0.entries, p.queue, cfg, req, free, p.moves, p.kept);
    KeyedIsBound(q0.entries, Grant(p, cfg, req).0.entries, x);
  }

  lemma NoGrantBound(q0: Queue, cfg: Config, req: Request, x: Entry)
    requires Inv(q0.entries) && ReserveOp(cfg, req).Valid() && !Grants(q0, req)
    requires x in q0.entries && x.opKey != "" && x.videoId != ""
    ensures var (q', a) := AfterReservePruned(q0, cfg, req);
            Bound(q'.entries, x.opKey, x.videoId) <==> !(a.Adopted? && a.videoId == x.videoId && x.opKey != req.opKey)
  {
    hide Prepare, Grant, Candidate, Adopt, Inv;
    CandidateIsOwn(q0.entries, req);
    var oi := IndexByOp(q0.entries, req.opKey);
    if q0.entries[oi.value].videoId == "" {
      AdoptDrops(q0.entries, Candidate(q0.entries, req).value.id, req, x);
    }
  }

  lemma CandidateIsOwn(es: seq<Entry>, req: Request)
    ensures Candidate(es, req).Some? ==> IndexByOp(es, req.opKey).Some?
  {
  }

  lemma KeyedIsBound(a: seq<Entry>, b: seq<Entry>, x: Entry)
    requires KeysKept(a, b) && BindingsKept(a, b) && x in a && x.opKey != "" && x.videoId != ""
    ensures Bound(b, x.opKey, x.videoId)
  {
    var y :| y in b && y.opKey == x.opKey;
  }

  lemma AdoptDrops(es: seq<Entry>, videoId: string, req: Request, x: Entry)
    requires Inv(es) && req.opKey != "" && x in es && x.opKey != "" && x.videoId != ""
    requires IndexByOp(es, req.opKey).Some? && es[IndexByOp(es, req.opKey).value].videoId == ""
    ensures Bound(Adopt(es, videoId, req), x.opKey, x.videoId) <==> !(videoId == x.videoId && x.opKey != req.opKey)
  {
    var keep := (e: Entry) => !(e.videoId == videoId && e.opKey != req.opKey);
    var kept := DropVideoExceptOp(es, videoId, req.opKey);
    FilterElements(keep, es);
    FilterKeepsInv(keep, es);
    var own := es[IndexByOp(es, req.opKey).value];
    assert own in es;
    if x.opKey == req.opKey {
      SameKeySameEntry(es, x, own);
    }
    OthersByKeyIn(kept, Adopt(es, videoId, req), req, x);
    forall y | y in kept && y.opKey == x.opKey ensures y == x {
      SameKeySameEntry(es, x, y);
    }
  }

  lemma OthersByKeyIn(kept: seq<Entry>, r: seq<Entry>, req: Request, x: Entry)
    requires Inv(kept) && req.opKey != "" && x.opKey != req.opKey
    requires var oi := IndexByOp(kept, req.opKey);
             if oi.Some? then |r| == |kept| && r[oi.value].opKey == req.opKey && r == kept[oi.value := r[oi.value]] else r == kept
    ensures forall y: Entry :: y.opKey == x.opKey ==> (y in r <==> y in kept)
  {
    var oi := IndexByOp(kept, req.opKey);
    if oi.Some? {
      forall y: Entry | y.opKey == x.opKey ensures y in r <==> y in kept {
        OthersByKey(kept, r, req.opKey, oi.value, y);
      }
    }
  }

  // ---- both can happen ----

  lemma ListedHasEntry(q: Queue, cfg: Config, req: Request, v: Video) returns (k: nat)
    requires ReserveOp(cfg, req).Valid() && req.listing.Some? && v in req.listing.value
    ensures var rs := Prepare(q, cfg, req).queue.entries;
            k < |rs| && rs[k].videoId == v.id
  {
    hide Problem.St, Prepare, LiveOcc, Writes, PlanOf;
    var r := PreparedIsWritten(q, cfg, req);
    var p := PlanOf(cfg, req, LiveOcc(cfg, req, q.entries), req.listing.value);
    assert InListing(req.listing.value, v.id);
    ListedAreWritten(p, req.now, req.listing.value, v.id);
    k := r.index[v.id];
  }

  /** The second upload's reservation finds the first one's video on the channel already. */
  const ALREADY_LISTED := ReserveOp(DEFAULTS, Request("b", "", 3010, Some([Video("v", "", 3600)])))

  /** What a new operation's reservation with one listed video leaves. */
  lemma ListedBehind(q: Queue, cfg: Config, req: Request, v: Video) returns (k: nat)
    requires ReserveOp(cfg, req).Valid() && Inv(q.entries) && Pruned(q.entries, req.now) == q.entries
    requires IndexByOp(q.entries, req.opKey).None? && req.listing == Some([v])
    requires forall e :: e in q.entries ==> !Stale(cfg, req, e)
    ensures var (r, a) := AfterReserve(q, cfg, req);
            && a.Granted? && |q.entries| <= |r.entries| && k < |r.entries| && r.entries[k].videoId == v.id
            && forall i :: 0 <= i < |q.entries| && q.entries[i].videoId == "" ==> r.entries[i] == q.entries[i]
  {
    hide Prepare, Pruned, Occ.Alloc, AfterReserve, FreshGrant, Inv, Stale;
    GrantedBehind(q, cfg, req);
    PrepareEvolves(q, cfg, req);
    NothingStale(cfg, q.entries, req);
    assert v in req.listing.value;
    k := ListedHasEntry(q, cfg, req, v);
  }

  lemma ListedBeforeCommit()
    ensures var (q, a) := AfterReserve(Queue(1, [FIRST]), DEFAULTS, ALREADY_LISTED.req);
            && ALREADY_LISTED.Valid() && !a.NoFreeSlot?
            && |q.entries| > 0 && q.entries[0] == FIRST && exists k :: 0 < k < |q.entries| && q.entries[k].videoId == "v"
  {
    hide AfterReserve, Pruned, Inv;
    SevenIsFirst(3130);
    FirstIsKept();
    var k := ListedBehind(Queue(1, [FIRST]), DEFAULTS, ALREADY_LISTED.req, Video("v", "", 3600));
  }

  /** From an empty queue: an upload is granted a slot; before its commit another reservation sees its video in the
      listing and gives it an entry; the commit gives it the second one. */
  lemma SecondTrackingIsReachable()
    ensures var (q, ops) := (Queue(0, []), [A, ALREADY_LISTED, CommitOp("a", "v", 3020)]);
            && A.Valid() && ALREADY_LISTED.Valid()
            && TrackedOnce(ApplyAll(q, ops[..2]).entries) && !TrackedOnce(Apply(ApplyAll(q, ops[..2]), ops[2]).entries)
  {
    hide AfterReserve, Pruned, TrackedOnce, ApplyAll, Promised, PromisedAll;
    SevenIsFirst(3120);
    FirstUpload();
    ListedBeforeCommit();
    var c := CommitOp("a", "v", 3020);
    ThreeOps(Queue(0, []), map[], A, ALREADY_LISTED, c);
    FirstIsKept();
    OneIsOnce(FIRST);
    StepTracksExactly(Queue(1, [FIRST]), ALREADY_LISTED);
    var q2 := Apply(Queue(1, [FIRST]), ALREADY_LISTED);
    CommitTracksExactly(q2, "a", "v", 3020);
    assert SecondTracking(q2, c);
  }

  lemma OneIsOnce(e: Entry)
    ensures TrackedOnce([e])
  {
  }

  /** The second upload's listing was fetched before the first upload's video was on the channel. */
  const NOT_YET_LISTED := ReserveOp(DEFAULTS, Request("b", "", 3010, Some([])))

  const COMMITTED := Entry("a", "v", "", New, Scheduled, Some(3600), None, 1, 1, Some(3005))

  lemma NothingListed(q: Queue)
    requires q.entries == [COMMITTED]
    ensures Pruned(q.entries, 3010) == q.entries
    ensures Prepare(q, DEFAULTS, NOT_YET_LISTED.req) == Prepared(q, Occ({}, map[]), [], 0)
  {
    var req := NOT_YET_LISTED.req;
    AllKept(e => Retained(3010, e), [COMMITTED]);
    NothingStale(DEFAULTS, [COMMITTED], req);
    NoLiveTaken(DHAKA, 3130, [COMMITTED]);
    assert q.(entries := [COMMITTED]) == q;
  }

  /** From an empty queue: an upload is granted 07:00 and committed; another one, whose listing does not show it yet, is
      granted 07:00 as well. */
  lemma BoundClashIsReachable()
    ensures var (q, ops) := (Queue(0, []), [A, CommitOp("a", "v", 3005), NOT_YET_LISTED]);
            && A.Valid() && NOT_YET_LISTED.Valid()
            && ApplyAll(q, ops[..2]).entries == [COMMITTED]
            && AfterReserve(ApplyAll(q, ops[..2]), DEFAULTS, NOT_YET_LISTED.req).1 == Granted(COMMITTED.slot, [], 0)
  {
    hide AfterReserve, Pruned, Prepare, Occ.Alloc, ApplyAll, Promised, PromisedAll, Quiet;
    SevenIsFirst(3120);
    FirstUpload();
    var b := CommitOp("a", "v", 3005);
    ThreeOps(Queue(0, []), map[], A, b, NOT_YET_LISTED);
    var q := Queue(1, [COMMITTED]);
    assert Apply(Queue(1, [FIRST]), b) == q;
    GrantedAgain(q);
  }

  lemma GrantedAgain(q: Queue)
    requires q == Queue(1, [COMMITTED])
    ensures AfterReserve(q, DEFAULTS, NOT_YET_LISTED.req).1 == Granted(Some(3600), [], 0)
  {
    hide AfterReserve, Pruned, Prepare, Occ.Alloc;
    SevenIsFirst(3130);
    NothingListed(q);
    EmptyDayAlloc(3010);
    NewUpload(q, DEFAULTS, NOT_YET_LISTED.req, Occ({}, map[]), 3600);
  }
}
