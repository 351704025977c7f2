/** The slots promised to uploads in flight, told apart from the entries the queue still keeps: an upload is in
    flight from its grant until it is committed, adopted or released, or goes stale, whether or not the cap on
    the number of entries has evicted its entry meanwhile. */
module PublishPromises {
  import opened Ordering
  import opened SlotOccupancy
  import opened Replan
  import opened PublishQueue
  import opened PublishRuns
  import opened PublishSlots

  /** A slot given to an operation, and when it was last given or confirmed. */
  datatype Promise = Promise(slot: int, at: int)

  type Promises = map<string, Promise>

  predicate StalePromise(cfg: Config, req: Request, opKey: string, p: Promise) {
    opKey != req.opKey && req.now - p.at > cfg.staleAfter
  }

  /** What is left in flight of other uploads when a reservation is granted. */
  function Current(h: Promises, cfg: Config, req: Request): Promises {
    map k | k in h && !StalePromise(cfg, req, k, h[k]) :: h[k]
  }

  /** The history: who has been promised what after an operation. */
  function Promised(q: Queue, h: Promises, op: Op): Promises
    requires op.ReserveOp? ==> |op.cfg.cal.slots| > 0
  {
    match op
    case ReserveOp(cfg, req) =>
      (match AfterReserve(q, cfg, req).1
       case Granted(Some(s), _, _) => Current(h, cfg, req)[req.opKey := Promise(s, req.now)]
       case Granted(None, _, _) => h
       case NoFreeSlot => h
       case AlreadyDone(_, _) => h - {req.opKey}
       case Adopted(_, _) => h - {req.opKey})
    case CommitOp(opKey, _, _) => h - {opKey}
    case ReleaseOp(opKey, _) => h - {opKey}
    case OutcomesOp(_, _) => h
  }

  ghost function PromisedAll(q: Queue, h: Promises, ops: seq<Op>): Promises
    requires forall op :: op in ops ==> op.Valid()
  {
    if |ops| == 0 then h
    else
      var (front, op) := (ops[..|ops| - 1], ops[|ops| - 1]);
      assert op.Valid();
      Promised(ApplyAll(q, front), PromisedAll(q, h, front), op)
  }

  /** No two uploads in flight have one slot. */
  ghost predicate NoSharedPromise(h: Promises) {
    forall a, b :: a in h && b in h && a != b ==> h[a].slot != h[b].slot
  }

  /** Every reservation the queue keeps is a promise in the history. */
  ghost predicate Covers(es: seq<Entry>, h: Promises) {
    forall e :: e in es && e.Live() ==>
      && e.opKey in h && e.slot == Some(h[e.opKey].slot) && e.updatedAt == Some(h[e.opKey].at)
  }

  ghost predicate HasLive(es: seq<Entry>, opKey: string) {
    exists e :: e in es && e.Live() && e.opKey == opKey
  }

  // ---- what one operation keeps ----

  /** The live entries that a preparation leaves are the old ones that were not stale. */
  lemma PreparedLive(q: Queue, cfg: Config, req: Request, e: Entry)
    requires Inv(q.entries) && ReserveOp(cfg, req).Valid() && e.Live()
    ensures e in Prepare(q, cfg, req).queue.entries <==> e in q.entries && !Stale(cfg, req, e)
  {
    hide Prepare, Evolves;
    var held := StaleReleased(cfg, req, q.entries);
    PrepareEvolves(q, cfg, req);
    LiveEvolves(held, Prepare(q, cfg, req).queue.entries, e);
    StaleAt(cfg, req, q.entries);
    if e in held {
      var i :| 0 <= i < |held| && held[i] == e;
      assert q.entries[i] == e;
    }
    if e in q.entries && !Stale(cfg, req, e) {
      var i :| 0 <= i < |q.entries| && q.entries[i] == e;
      assert held[i] == e;
    }
  }

  lemma LiveEvolves(a: seq<Entry>, b: seq<Entry>, e: Entry)
    requires Evolves(a, b) && e.Live()
    ensures e in b <==> e in a
  {
    if e in a {
      var i :| 0 <= i < |a| && a[i] == e;
      assert b[i] == e;
    }
  }

  /** After a grant: the operation's own reservation, now, and the prepared ones of the others. */
  lemma GrantedLive(q: Queue, cfg: Config, req: Request, e: Entry)
    requires Inv(q.entries) && ReserveOp(cfg, req).Valid() && Grants(q, req)
    requires Grant(Prepare(q, cfg, req), cfg, req).1.Granted?
    ensures var (q', a) := Grant(Prepare(q, cfg, req), cfg, req);
            && a.slot.Some? && HasLive(q'.entries, req.opKey)
            && (e in q'.entries && e.Live() && e.opKey == req.opKey ==>
                  e.slot == a.slot && e.updatedAt == Some(req.now))
            && (e.opKey != req.opKey ==> (e in q'.entries <==> e in Prepare(q, cfg, req).queue.entries))
  {
    hide Prepare, Occ.Alloc, Grants;
    var p := Prepare(q, cfg, req);
    PrepareKeepsInv(q, cfg, req);
    OwnIsUnbound(q, cfg, req);
    var free := p.occ.Alloc(cfg.cal, MinStart(cfg, req));
    GrantReplacesOwn(p.queue, cfg, req, free, p.moves, p.kept);
    var es := Grant(p, cfg, req).0.entries;
    var oi := IndexByOp(p.queue.entries, req.opKey);
    OthersByKey(p.queue.entries, es, req.opKey, if oi.Some? then oi.value else |p.queue.entries|, e);
  }

  lemma OwnIsUnbound(q: Queue, cfg: Config, req: Request)
    requires Inv(q.entries) && ReserveOp(cfg, req).Valid() && Grants(q, req)
    ensures var es := Prepare(q, cfg, req).queue.entries;
            var oi := IndexByOp(es, req.opKey);
            oi.Some? ==> es[oi.value].videoId == ""
  {
    PrepareKeepsOwn(q, cfg, req);
  }

  /** A grant writes one entry, the operation's own, and that one is live. */
  lemma GrantReplacesOwn(q: Queue, cfg: Config, req: Request, free: Option<int>, moves: seq<Move>, kept: nat)
    requires var oi := IndexByOp(q.entries, req.opKey); oi.Some? ==> q.entries[oi.value].videoId == ""
    requires GrantFrom(q, cfg, req, free, moves, kept).1.Granted?
    ensures var (q', a) := GrantFrom(q, cfg, req, free, moves, kept);
            var oi := IndexByOp(q.entries, req.opKey);
            var (own, es) := (if oi.Some? then oi.value else |q.entries|, q'.entries);
            && a.slot.Some? && own < |es| && |es| == (if oi.Some? then |q.entries| else |q.entries| + 1)
            && es[own].Live() && es[own].opKey == req.opKey && es[own].slot == a.slot
            && es[own].updatedAt == Some(req.now)
            && (forall i :: 0 <= i < |q.entries| && i != own ==> es[i] == q.entries[i])
  {
  }

  lemma OthersByKey(before: seq<Entry>, es: seq<Entry>, opKey: string, own: nat, e: Entry)
    requires Inv(before) && opKey != ""
    requires own == (var oi := IndexByOp(before, opKey); if oi.Some? then oi.value else |before|)
    requires own < |es| && |es| == (if own < |before| then |before| else |before| + 1)
    requires es[own].opKey == opKey && forall i :: 0 <= i < |before| && i != own ==> es[i] == before[i]
    ensures e.opKey != opKey ==> (e in es <==> e in before)
    ensures e in es && e.opKey == opKey ==> e == es[own]
  {
    if e in es {
      var i :| 0 <= i < |es| && es[i] == e;
      if i != own {
        assert es[i] == before[i];
        if own < |before| {
          assert OneKey(before[if i < own then i else own], before[if i < own then own else i]);
        }
      }
    }
    if e in before {
      var i :| 0 <= i < |before| && before[i] == e;
      assert i != own ==> es[i] == e;
    }
  }

  /** The three outcomes of a reservation. */
  lemma ReservePaths(q: Queue, cfg: Config, req: Request)
    requires |cfg.cal.slots| > 0
    ensures var q0 := q.(entries := Pruned(q.entries, req.now));
            && (Grants(q0, req) ==> AfterReserve(q, cfg, req) == Grant(Prepare(q0, cfg, req), cfg, req))
            && (!Grants(q0, req) ==> AfterReserve(q, cfg, req).1.AlreadyDone? || AfterReserve(q, cfg, req).1.Adopted?)
            && (Grants(q0, req) ==> AfterReserve(q, cfg, req).1.Granted? || AfterReserve(q, cfg, req).1.NoFreeSlot?)
  {
    hide Prepare, Pruned, Occ.Alloc, Candidate;
  }

  /** Without a grant the other operations' reservations are the pruned ones, and the operation has none. */
  lemma NoGrantLive(q: Queue, cfg: Config, req: Request, e: Entry)
    requires Inv(q.entries) && ReserveOp(cfg, req).Valid() && !Grants(q, req) && e.Live()
    ensures var es := AfterReservePruned(q, cfg, req).0.entries;
            e in es <==> e in q.entries && e.opKey != req.opKey
  {
    var oi := IndexByOp(q.entries, req.opKey);
    var own := q.entries[oi.value];
    assert own in q.entries;
    if e in q.entries && e.opKey == req.opKey {
      SameKeySameEntry(q.entries, e, own);
    }
    if own.videoId == "" {
      hide Candidate;
      var v := Candidate(q.entries, req).value;
      CandidateIsListed(q.entries, req);
      AdoptLive(q.entries, v.id, req, e);
    }
  }

  lemma {:induction false} LostUploadIsListed(vids: seq<Video>, slot: int, title: string)
    ensures LostUpload(vids, slot, title).Some? ==> LostUpload(vids, slot, title).value in vids
  {
    if |vids| > 0 {
      LostUploadIsListed(vids[1..], slot, title);
    }
  }

  lemma CandidateIsListed(es: seq<Entry>, req: Request)
    ensures Candidate(es, req).Some? ==> req.listing.Some? && Candidate(es, req).value in req.listing.value
  {
    if Candidate(es, req).Some? {
      LostUploadIsListed(req.listing.value, es[IndexByOp(es, req.opKey).value].slot.value, req.title);
    }
  }

  lemma AdoptLive(es: seq<Entry>, videoId: string, req: Request, e: Entry)
    requires Inv(es) && e.Live() && videoId != "" && req.opKey != ""
    ensures e in Adopt(es, videoId, req) <==> e in es && e.opKey != req.opKey
  {
    var keep := (x: Entry) => !(x.videoId == videoId && x.opKey != req.opKey);
    var kept := DropVideoExceptOp(es, videoId, req.opKey);
    FilterElements(keep, es);
    FilterKeepsInv(keep, es);
    assert e in kept <==> e in es;
    var oi := IndexByOp(kept, req.opKey);
    var r := Adopt(es, videoId, req);
    if oi.Some? {
      OthersByKey(kept, r, req.opKey, oi.value, e);
    }
  }

  lemma CommitLive(q: Queue, opKey: string, videoId: string, at: int, e: Entry)
    requires Inv(q.entries) && opKey != "" && e.Live()
    ensures e in AfterCommit(q, opKey, videoId, at).entries <==> e in q.entries && e.opKey != opKey
  {
    var oi := IndexByOp(q.entries, opKey);
    if oi.Some? {
      OthersByKey(q.entries, AfterCommit(q, opKey, videoId, at).entries, opKey, oi.value, e);
    }
  }

  lemma UniqueIndex(es: seq<Entry>, opKey: string, i: nat)
    requires Inv(es) && opKey != "" && i < |es| && es[i].opKey == opKey
    ensures IndexByOp(es, opKey) == Some(i)
  {
    var oi := IndexByOp(es, opKey).value;
    assert forall j :: 0 <= j < i ==> OneKey(es[j], es[i]);
  }

  lemma ReleaseLive(q: Queue, opKey: string, at: int, e: Entry)
    requires Inv(q.entries) && opKey != "" && e.Live()
    ensures e in AfterRelease(q, opKey, at).entries <==> e in q.entries && e.opKey != opKey
  {
    var ui := UnboundFrom(q.entries, opKey, 0);
    if ui.Some? {
      UniqueIndex(q.entries, opKey, ui.value);
      OthersByKey(q.entries, AfterRelease(q, opKey, at).entries, opKey, ui.value, e);
    }
  }

  /** The reservations an operation leaves of others: the retained ones, less the stale ones on a grant. */
  lemma LiveAfter(q: Queue, op: Op, e: Entry)
    requires Inv(q.entries) && op.Valid() && e.Live()
    ensures match op
            case ReserveOp(cfg, req) =>
              AfterReserve(q, cfg, req).1.NoFreeSlot? || e.opKey == req.opKey ||
              (e in Apply(q, op).entries <==>
                (e in Pruned(q.entries, req.now) && (AfterReserve(q, cfg, req).1.Granted? ==> !Stale(cfg, req, e))))
            case CommitOp(opKey, _, _) => e in Apply(q, op).entries <==> e in q.entries && e.opKey != opKey
            case ReleaseOp(opKey, _) => e in Apply(q, op).entries <==> e in q.entries && e.opKey != opKey
            case OutcomesOp(_, _) => e in Apply(q, op).entries <==> e in q.entries
  {
    hide AfterReserve, AfterCommit, AfterRelease, Pruned, Prepare, Grant, Grants;
    match op
    case ReserveOp(cfg, req) =>
      PrunedKeepsInv(q.entries, req.now);
      ReservePaths(q, cfg, req);
      var q0 := q.(entries := Pruned(q.entries, req.now));
      if Grants(q0, req) {
        if AfterReserve(q, cfg, req).1.Granted? {
          GrantedLive(q0, cfg, req, e);
          PreparedLive(q0, cfg, req, e);
        }
      } else {
        NoGrantLive(q0, cfg, req, e);
        PrunedFirst(q, cfg, req);
      }
    case CommitOp(opKey, videoId, at) => CommitLive(q, opKey, videoId, at, e);
    case ReleaseOp(opKey, at) => ReleaseLive(q, opKey, at, e);
    case OutcomesOp(outs, at) =>
      OutcomesEvolve(q.entries, outs, at);
      LiveEvolves(q.entries, ApplyOutcomes(q.entries, outs, at), e);
  }

  lemma PrunedFirst(q: Queue, cfg: Config, req: Request)
    requires |cfg.cal.slots| > 0
    ensures AfterReserve(q, cfg, req) == AfterReservePruned(q.(entries := Pruned(q.entries, req.now)), cfg, req)
  {
  }

  /** Pruning leaves a live entry of the reservation's own, or of another, only if it was there. */
  lemma PrunedSubset(es: seq<Entry>, now: int)
    requires Inv(es)
    ensures forall e :: e in Pruned(es, now) ==> e in es
  {
    PrunedKeepsInv(es, now);
  }

  lemma CoversGrant(q: Queue, h: Promises, cfg: Config, req: Request)
    requires Inv(q.entries) && Covers(q.entries, h) && ReserveOp(cfg, req).Valid() && AfterReserve(q, cfg, req).1.Granted?
    ensures Covers(AfterReserve(q, cfg, req).0.entries, Promised(q, h, ReserveOp(cfg, req)))
  {
    hide AfterReserve, Pruned, Prepare, Grant, Grants;
    var op := ReserveOp(cfg, req);
    var q0 := q.(entries := Pruned(q.entries, req.now));
    PrunedKeepsInv(q.entries, req.now);
    ReservePaths(q, cfg, req);
    var es := AfterReserve(q, cfg, req).0.entries;
    forall e | e in es && e.Live()
      ensures var g := Promised(q, h, op);
              e.opKey in g && e.slot == Some(g[e.opKey].slot) && e.updatedAt == Some(g[e.opKey].at)
    {
      GrantedLive(q0, cfg, req, e);
      if e.opKey != req.opKey {
        LiveAfter(q, op, e);
      }
    }
  }

  /** The history goes on covering what the queue keeps. */
  lemma CoversKept(q: Queue, h: Promises, op: Op)
    requires Inv(q.entries) && Covers(q.entries, h) && op.Valid()
    ensures Covers(Apply(q, op).entries, Promised(q, h, op))
  {
    hide AfterReserve, AfterCommit, AfterRelease, Pruned;
    var (es, g) := (Apply(q, op).entries, Promised(q, h, op));
    if op.ReserveOp? && AfterReserve(q, op.cfg, op.req).1.Granted? {
      CoversGrant(q, h, op.cfg, op.req);
    } else {
      forall e | e in es && e.Live()
        ensures e.opKey in g && e.slot == Some(g[e.opKey].slot) && e.updatedAt == Some(g[e.opKey].at)
      {
        LiveAfter(q, op, e);
        if op.ReserveOp? {
          PrunedSubset(q.entries, op.req.now);
          if AfterReserve(q, op.cfg, op.req).1.NoFreeSlot? {
            assert e in q.entries;
          } else {
            OwnNotLive(q, op.cfg, op.req, e);
          }
        }
      }
    }
  }

  lemma OwnNotLive(q: Queue, cfg: Config, req: Request, e: Entry)
    requires Inv(q.entries) && ReserveOp(cfg, req).Valid() && e.Live()
    requires AfterReserve(q, cfg, req).1.AlreadyDone? || AfterReserve(q, cfg, req).1.Adopted?
    ensures e in AfterReserve(q, cfg, req).0.entries ==> e.opKey != req.opKey
  {
    hide AfterReserve, Pruned, Prepare, Grant, Grants;
    PrunedKeepsInv(q.entries, req.now);
    ReservePaths(q, cfg, req);
    var q0 := q.(entries := Pruned(q.entries, req.now));
    PrunedFirst(q, cfg, req);
    NoGrantLive(q0, cfg, req, e);
  }

  // ---- when two uploads in flight share a slot ----

  /** The reservation gives the operation a slot it did not hold before. */
  ghost predicate GrantsFresh(q: Queue, cfg: Config, req: Request)
    requires |cfg.cal.slots| > 0
  {
    var q0 := q.(entries := Pruned(q.entries, req.now));
    Grants(q0, req) && FreshGrant(Prepare(q0, cfg, req), cfg, req)
  }

  function FreshSlot(q: Queue, cfg: Config, req: Request): Option<int>
    requires |cfg.cal.slots| > 0
  {
    Prepare(q.(entries := Pruned(q.entries, req.now)), cfg, req).occ.Alloc(cfg.cal, MinStart(cfg, req))
  }

  /** The slot is promised to another upload in flight whose entry the queue no longer has. */
  ghost predicate EvictedClash(q: Queue, h: Promises, op: Op)
    requires op.Valid()
  {
    op.ReserveOp? && GrantsFresh(q, op.cfg, op.req) &&
    exists k :: k in Current(h, op.cfg, op.req) && k != op.req.opKey && !HasLive(Pruned(q.entries, op.req.now), k)
                && FreshSlot(q, op.cfg, op.req) == Some(h[k].slot)
  }

  lemma GrantedSlot(q: Queue, h: Promises, cfg: Config, req: Request)
    requires Inv(q.entries) && Covers(q.entries, h) && ReserveOp(cfg, req).Valid() && AfterReserve(q, cfg, req).1.Granted?
    ensures var slot := AfterReserve(q, cfg, req).1.slot;
            && slot.Some?
            && (GrantsFresh(q, cfg, req) ==> slot == FreshSlot(q, cfg, req))
            && (!GrantsFresh(q, cfg, req) ==> req.opKey in h && slot == Some(h[req.opKey].slot))
  {
    hide AfterReserve, Pruned, Prepare, Occ.Alloc;
    var q0 := q.(entries := Pruned(q.entries, req.now));
    PrunedKeepsInv(q.entries, req.now);
    ReservePaths(q, cfg, req);
    PrepareKeepsOwn(q0, cfg, req);
    var p := Prepare(q0, cfg, req);
    var oi := IndexByOp(p.queue.entries, req.opKey);
    if !GrantsFresh(q, cfg, req) && oi.Some? {
      assert q0.entries[oi.value] in q0.entries;
    }
  }

  /** The other promise is held by a retained entry, or by none. */
  lemma RetainedPromise(q: Queue, h: Promises, cfg: Config, req: Request, k: string)
    requires Inv(q.entries) && Covers(q.entries, h) && ReserveOp(cfg, req).Valid()
    requires k in Current(h, cfg, req) && k != req.opKey && HasLive(Pruned(q.entries, req.now), k)
    ensures exists e :: e in Prepare(q.(entries := Pruned(q.entries, req.now)), cfg, req).queue.entries && e.Live()
                        && e.opKey == k && e.slot == Some(h[k].slot)
  {
    hide Prepare, Pruned;
    PrunedKeepsInv(q.entries, req.now);
    var e :| e in Pruned(q.entries, req.now) && e.Live() && e.opKey == k;
    PreparedLive(q.(entries := Pruned(q.entries, req.now)), cfg, req, e);
  }

  lemma PreparedPromise(q: Queue, h: Promises, cfg: Config, req: Request, e: Entry)
    requires Inv(q.entries) && Covers(q.entries, h) && ReserveOp(cfg, req).Valid() && e.Live() && e.opKey != req.opKey
    requires e in Prepare(q.(entries := Pruned(q.entries, req.now)), cfg, req).queue.entries
    ensures e.opKey in Current(h, cfg, req) && e.slot == Some(h[e.opKey].slot)
  {
    hide Prepare, Pruned;
    PrunedKeepsInv(q.entries, req.now);
    PreparedLive(q.(entries := Pruned(q.entries, req.now)), cfg, req, e);
  }

  lemma FreshClash(q: Queue, h: Promises, cfg: Config, req: Request)
    requires Inv(q.entries) && Covers(q.entries, h) && ReserveOp(cfg, req).Valid() && GrantsFresh(q, cfg, req)
    ensures (exists k :: k in Current(h, cfg, req) && k != req.opKey && FreshSlot(q, cfg, req) == Some(h[k].slot))
            <==> Clashes(q, ReserveOp(cfg, req)) || EvictedClash(q, h, ReserveOp(cfg, req))
  {
    hide Prepare, Pruned, Occ.Alloc, BoundaryClash, Grants;
    var q0 := q.(entries := Pruned(q.entries, req.now));
    PrunedKeepsInv(q.entries, req.now);
    var s := FreshSlot(q, cfg, req).value;
    ClashIffShared(q0, cfg, req, s);
    if k :| k in Current(h, cfg, req) && k != req.opKey && FreshSlot(q, cfg, req) == Some(h[k].slot) {
      if HasLive(q0.entries, k) {
        RetainedPromise(q, h, cfg, req, k);
      }
    }
    if BoundaryClash(q0, cfg, req) {
      var e :| e in Prepare(q0, cfg, req).queue.entries && e.Live() && e.opKey != req.opKey && e.slot == Some(s);
      PreparedPromise(q, h, cfg, req, e);
    }
  }

  lemma SharedAfterGrant(h: Promises, cfg: Config, req: Request, s: int)
    requires NoSharedPromise(h)
    ensures NoSharedPromise(Current(h, cfg, req)[req.opKey := Promise(s, req.now)])
            <==> !exists k :: k in Current(h, cfg, req) && k != req.opKey && h[k].slot == s
  {
    var (c, g) := (Current(h, cfg, req), Current(h, cfg, req)[req.opKey := Promise(s, req.now)]);
    if k :| k in c && k != req.opKey && h[k].slot == s {
      assert k in g && req.opKey in g && g[k].slot == g[req.opKey].slot;
    }
  }

  /** Two uploads in flight share a slot after an operation exactly if it grants a fresh one and either the
      earliest start itself is free and reserved, or the slot belongs to an upload whose entry was evicted. */
  lemma StepSharesExactly(q: Queue, h: Promises, op: Op)
    requires Inv(q.entries) && Covers(q.entries, h) && NoSharedPromise(h) && op.Valid()
    ensures NoSharedPromise(Promised(q, h, op)) <==> !Clashes(q, op) && !EvictedClash(q, h, op)
  {
    hide AfterReserve, Pruned, Prepare, BoundaryClash, Occ.Alloc;
    if op.ReserveOp? {
      var (cfg, req) := (op.cfg, op.req);
      ReservePaths(q, cfg, req);
      if AfterReserve(q, cfg, req).1.Granted? {
        GrantedSlot(q, h, cfg, req);
        var s := AfterReserve(q, cfg, req).1.slot.value;
        SharedAfterGrant(h, cfg, req, s);
        if GrantsFresh(q, cfg, req) {
          FreshClash(q, h, cfg, req);
        } else {
          NoClashWithoutFresh(q, h, op);
        }
      } else {
        NoFreshWithoutGrant(q, cfg, req);
        NoClashWithoutFresh(q, h, op);
      }
    }
  }

  lemma NoClashWithoutFresh(q: Queue, h: Promises, op: Op)
    requires op.Valid() && op.ReserveOp? && !GrantsFresh(q, op.cfg, op.req)
    ensures !Clashes(q, op) && !EvictedClash(q, h, op)
  {
  }

  lemma NoFreshWithoutGrant(q: Queue, cfg: Config, req: Request)
    requires ReserveOp(cfg, req).Valid() && !AfterReserve(q, cfg, req).1.Granted?
    ensures !GrantsFresh(q, cfg, req)
  {
    hide Pruned, Prepare, Occ.Alloc, Candidate;
  }

  // ---- runs ----

  ghost predicate ClashesAt(q: Queue, h: Promises, ops: seq<Op>, k: nat)
    requires k < |ops| && forall op :: op in ops ==> op.Valid()
  {
    var (front, op) := (ops[..k], ops[k]);
    Clashes(ApplyAll(q, front), op) || EvictedClash(ApplyAll(q, front), PromisedAll(q, h, front), op)
  }

  lemma {:induction false} RunsCover(q: Queue, h: Promises, ops: seq<Op>)
    requires Inv(q.entries) && Covers(q.entries, h) && forall op :: op in ops ==> op.Valid()
    ensures Covers(ApplyAll(q, ops).entries, PromisedAll(q, h, ops))
  {
    hide Apply, Promised, Covers;
    if |ops| > 0 {
      var (front, op) := (ops[..|ops| - 1], ops[|ops| - 1]);
      RunsCover(q, h, front);
      RunsKeepInv(q, front);
      assert op in ops;
      CoversKept(ApplyAll(q, front), PromisedAll(q, h, front), op);
    }
  }

  /** Over every run: uploads in flight have distinct slots all along exactly if no reservation meets the boundary
      case or is given the slot of an evicted one. */
  lemma {:induction false} PromisesDistinctExactly(q: Queue, h: Promises, ops: seq<Op>)
    requires Inv(q.entries) && Covers(q.entries, h) && NoSharedPromise(h) && forall op :: op in ops ==> op.Valid()
    ensures (forall k :: 0 <= k <= |ops| ==> NoSharedPromise(PromisedAll(q, h, ops[..k])))
            <==> (forall k :: 0 <= k < |ops| ==> !ClashesAt(q, h, ops, k))
  {
    hide Promised, NoSharedPromise, Clashes, EvictedClash, Apply, Covers, ApplyAll, PromisedAll;
    if |ops| == 0 {
      assert ops[..0] == [];
      assert PromisedAll(q, h, []) == h by {
        PromisedNothing(q, h);
      }
    } else {
      var n := |ops| - 1;
      var front := ops[..n];
      PromisesDistinctExactly(q, h, front);
      forall k | 0 <= k <= n ensures front[..k] == ops[..k] {
      }
      assert ops[..n + 1] == ops;
      forall k | 0 <= k < n ensures ClashesAt(q, h, front, k) == ClashesAt(q, h, ops, k) {
        assert front[..k] == ops[..k];
      }
      assert front[..n] == front;
      if NoSharedPromise(PromisedAll(q, h, front)) {
        LastStep(q, h, ops);
      }
    }
  }

  lemma PromisedNothing(q: Queue, h: Promises)
    ensures PromisedAll(q, h, []) == h
  {
  }

  lemma LastStep(q: Queue, h: Promises, ops: seq<Op>)
    requires Inv(q.entries) && Covers(q.entries, h) && |ops| > 0 && forall op :: op in ops ==> op.Valid()
    requires NoSharedPromise(PromisedAll(q, h, ops[..|ops| - 1]))
    ensures NoSharedPromise(PromisedAll(q, h, ops)) <==> !ClashesAt(q, h, ops, |ops| - 1)
  {
    hide Promised, NoSharedPromise, Clashes, EvictedClash, Apply, Covers, ApplyAll;
    var (front, op) := (ops[..|ops| - 1], ops[|ops| - 1]);
    RunsCover(q, h, front);
    RunsKeepInv(q, front);
    assert op in ops;
    StepSharesExactly(ApplyAll(q, front), PromisedAll(q, h, front), op);
  }

  // ---- without eviction ----

  /** Every upload in flight still has its entry. */
  ghost predicate Complete(es: seq<Entry>, h: Promises) {
    forall k :: k in h ==> HasLive(es, k)
  }

  /** Pruning drops the entry of an upload in flight: 400 entries stand behind it. */
  ghost predicate Evicts(q: Queue, op: Op) {
    op.ReserveOp? &&
    exists i :: 0 <= i < |q.entries| && q.entries[i].Live()
                && |Filter(e => Retained(op.req.now, e), q.entries[i + 1..])| >= MAX_ENTRIES
  }

  lemma NothingEvicted(q: Queue, op: Op, k: string)
    requires Inv(q.entries) && op.ReserveOp? && !Evicts(q, op) && HasLive(q.entries, k)
    ensures exists e :: e in q.entries && e in Pruned(q.entries, op.req.now) && e.Live() && e.opKey == k
  {
    hide Pruned;
    var e :| e in q.entries && e.Live() && e.opKey == k;
    var i :| 0 <= i < |q.entries| && q.entries[i] == e;
    LiveSurvivesPrune(q.entries, op.req.now, i);
  }

  lemma NoEvictionNoClash(q: Queue, h: Promises, op: Op)
    requires Inv(q.entries) && Complete(q.entries, h) && op.Valid() && !Evicts(q, op)
    ensures !EvictedClash(q, h, op)
  {
    hide Evicts, GrantsFresh, FreshSlot, Pruned;
    forall k | op.ReserveOp? && k in h ensures HasLive(Pruned(q.entries, op.req.now), k) {
      NothingEvicted(q, op, k);
    }
  }

  lemma CompleteKept(q: Queue, h: Promises, op: Op)
    requires Inv(q.entries) && Covers(q.entries, h) && Complete(q.entries, h) && op.Valid() && !Evicts(q, op)
    ensures Complete(Apply(q, op).entries, Promised(q, h, op))
  {
    hide Evicts, AfterReserve, AfterCommit, AfterRelease, ApplyOutcomes, Pruned, Prepare, Grant, Grants;
    var (es, g) := (Apply(q, op).entries, Promised(q, h, op));
    if op.ReserveOp? && AfterReserve(q, op.cfg, op.req).1.Granted? {
      PrunedKeepsInv(q.entries, op.req.now);
      ReservePaths(q, op.cfg, op.req);
      var any := Entry("", "", "", New, Reserved, None, None, 0, 0, None);
      GrantedLive(q.(entries := Pruned(q.entries, op.req.now)), op.cfg, op.req, any);
    }
    forall k | k in g && (op.ReserveOp? ==> k != op.req.opKey) ensures HasLive(es, k) {
      var e :| e in q.entries && e.Live() && e.opKey == k;
      if op.ReserveOp? {
        NothingEvicted(q, op, k);
        e :| e in q.entries && e in Pruned(q.entries, op.req.now) && e.Live() && e.opKey == k;
      }
      LiveAfter(q, op, e);
      assert e in es;
    }
    if op.ReserveOp? && op.req.opKey in g && !AfterReserve(q, op.cfg, op.req).1.Granted? {
      assert g == h && es == q.entries;
    }
  }

  /** Every entry dropped by the cap apart, the boundary case is the only way to a shared slot. */
  lemma {:induction false} DistinctWithoutEviction(q: Queue, h: Promises, ops: seq<Op>)
    requires Inv(q.entries) && Covers(q.entries, h) && Complete(q.entries, h) && NoSharedPromise(h)
    requires forall op :: op in ops ==> op.Valid()
    requires forall k :: 0 <= k < |ops| ==>
               !Clashes(ApplyAll(q, ops[..k]), ops[k]) && !Evicts(ApplyAll(q, ops[..k]), ops[k])
    ensures NoSharedPromise(PromisedAll(q, h, ops)) && Complete(ApplyAll(q, ops).entries, PromisedAll(q, h, ops))
  {
    hide Promised, NoSharedPromise, Clashes, EvictedClash, Evicts, Apply, Covers, Complete;
    if |ops| > 0 {
      var (front, op) := (ops[..|ops| - 1], ops[|ops| - 1]);
      forall k | 0 <= k < |front|
        ensures !Clashes(ApplyAll(q, front[..k]), front[k]) && !Evicts(ApplyAll(q, front[..k]), front[k])
      {
        assert front[..k] == ops[..k];
      }
      DistinctWithoutEviction(q, h, front);
      RunsCover(q, h, front);
      RunsKeepInv(q, front);
      assert op in ops;
      var (q1, h1) := (ApplyAll(q, front), PromisedAll(q, h, front));
      NoEvictionNoClash(q1, h1, op);
      StepSharesExactly(q1, h1, op);
      CompleteKept(q1, h1, op);
    }
  }
}
