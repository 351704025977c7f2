/** What every run of the publishing queue keeps. */
module PublishRuns {
  import opened Ordering
  import opened SlotOccupancy
  import opened Replan
  import opened PublishQueue

  /** A reserved entry belongs to an upload and has no video; a listed video has one. */
  predicate Good(e: Entry) {
    && (e.status.Reserved? ==> e.videoId == "" && e.slot.Some?)
    && (e.opKey == "" ==> e.videoId != "")
  }

  predicate OneKey(a: Entry, b: Entry) {
    a.opKey == b.opKey ==> a.opKey == ""
  }

  ghost predicate Inv(es: seq<Entry>) {
    Pairwise(OneKey, es) && forall e :: e in es ==> Good(e)
  }

  lemma SameKeySameEntry(es: seq<Entry>, a: Entry, b: Entry)
    requires Inv(es) && a in es && b in es && a.opKey == b.opKey && a.opKey != ""
    ensures a == b
  {
    var i :| 0 <= i < |es| && es[i] == a;
    var j :| 0 <= j < |es| && es[j] == b;
    assert !OneKey(es[i], es[j]) && !OneKey(es[j], es[i]);
  }

  /** No two reservations among the retained entries have one slot. */
  ghost predicate NoSharedSlot(es: seq<Entry>) {
    forall i, j :: 0 <= i < j < |es| && es[i].Live() && es[j].Live() ==> es[i].slot != es[j].slot
  }

  /** Entries known in `a` keep the video they are bound to. */
  ghost predicate BindingsKept(a: seq<Entry>, b: seq<Entry>) {
    forall x, y :: x in a && y in b && x.opKey == y.opKey && x.opKey != "" && x.videoId != "" ==>
                     y.videoId == x.videoId
  }

  datatype Op =
    | ReserveOp(cfg: Config, req: Request)
    | CommitOp(opKey: string, videoId: string, at: int)
    | ReleaseOp(opKey: string, at: int)
    | OutcomesOp(outs: seq<Outcome>, at: int)
  {
    /** Operation keys are never empty, and the video service answers with video IDs. */
    ghost predicate Valid() {
      match this
      case ReserveOp(cfg, req) =>
        && cfg.cal.Valid() && req.opKey != ""
        && (req.listing.Some? ==> forall v :: v in req.listing.value ==> v.id != "")
      case CommitOp(opKey, _, _) => opKey != ""
      case ReleaseOp(opKey, _) => opKey != ""
      case OutcomesOp(outs, _) => forall o :: o in outs ==> o.videoId != "" && !o.status.Reserved?
    }
  }

  /** The stored state after an operation; a failed reservation is rolled back. */
  function Apply(q: Queue, op: Op): Queue
    requires op.ReserveOp? ==> |op.cfg.cal.slots| > 0
  {
    match op
    case ReserveOp(cfg, req) =>
      var (q', a) := AfterReserve(q, cfg, req);
      if a.NoFreeSlot? then q else q'
    case CommitOp(opKey, videoId, at) => AfterCommit(q, opKey, videoId, at)
    case ReleaseOp(opKey, at) => AfterRelease(q, opKey, at)
    case OutcomesOp(outs, at) => q.(entries := ApplyOutcomes(q.entries, outs, at))
  }

  ghost function ApplyAll(q: Queue, ops: seq<Op>): Queue
    requires forall op :: op in ops ==> op.Valid()
  {
    if |ops| == 0 then q
    else
      var op := ops[|ops| - 1];
      assert op.Valid();
      Apply(ApplyAll(q, ops[..|ops| - 1]), op)
  }

  // ---- prune and drop ----

  lemma FilterKeepsInv(keep: Entry -> bool, es: seq<Entry>)
    requires Inv(es)
    ensures Inv(Filter(keep, es))
    ensures forall e :: e in Filter(keep, es) ==> e in es
  {
    FilterKeepsPairwise(OneKey, keep, es);
    FilterElements(keep, es);
  }

  lemma PrunedKeepsInv(es: seq<Entry>, now: int)
    requires Inv(es)
    ensures Inv(Pruned(es, now)) && |Pruned(es, now)| <= MAX_ENTRIES
    ensures forall e :: e in Pruned(es, now) ==> e in es
  {
    var r := Filter(e => Retained(now, e), es);
    FilterKeepsInv(e => Retained(now, e), es);
    forall e | e in Pruned(es, now) ensures e in r && e in es {}
  }

  /** Pruning drops a reservation in flight exactly if at least 400 entries that are kept for their age stand
      behind it; its own age never matters. */
  lemma LiveSurvivesPrune(es: seq<Entry>, now: int, i: nat)
    requires Inv(es) && i < |es| && es[i].Live()
    ensures es[i] in Pruned(es, now) <==> |Filter(e => Retained(now, e), es[i + 1..])| < MAX_ENTRIES
  {
    hide Filter, Retained, Newest, Inv;
    var keep := (e: Entry) => Retained(now, e);
    LiveIsKept(es, now, i);
    FilterAround(keep, es, i);
    OneOfItsKind(es, i);
    FilterElements(keep, es[i + 1..]);
    NewestKeeps(Filter(keep, es[..i]), es[i], Filter(keep, es[i + 1..]));
  }

  lemma LiveIsKept(es: seq<Entry>, now: int, i: nat)
    requires i < |es| && es[i].Live()
    ensures Retained(now, es[i])
  {
  }

  lemma OneOfItsKind(es: seq<Entry>, i: nat)
    requires Inv(es) && i < |es| && es[i].Live()
    ensures es[i] !in es[i + 1..]
  {
    assert Good(es[i]);
    forall j | i < j < |es| ensures es[j] != es[i] {
      assert OneKey(es[i], es[j]);
    }
  }

  lemma FilterAround(keep: Entry -> bool, es: seq<Entry>, i: nat)
    requires i < |es| && keep(es[i])
    ensures Filter(keep, es) == Filter(keep, es[..i]) + [es[i]] + Filter(keep, es[i + 1..])
  {
    assert es == es[..i + 1] + es[i + 1..];
    FilterConcat(keep, es[..i + 1], es[i + 1..]);
    FilterStep(keep, es, i);
  }

  lemma NewestKeeps(before: seq<Entry>, e: Entry, after: seq<Entry>)
    requires e !in after
    ensures e in Newest(before + [e] + after) <==> |after| < MAX_ENTRIES
  {
    var all := before + [e] + after;
    if |after| < MAX_ENTRIES {
      var cut := if |all| > MAX_ENTRIES then |all| - MAX_ENTRIES else 0;
      assert all[|before|] == e && Newest(all) == all[cut..];
      assert Newest(all)[|before| - cut] == e;
    } else {
      assert Newest(all) == after[|after| - MAX_ENTRIES..];
    }
  }

  ghost predicate Distinct(a: Entry, b: Entry) {
    a.Live() && b.Live() ==> a.slot != b.slot
  }

  lemma PrunedKeepsSlots(es: seq<Entry>, now: int)
    requires NoSharedSlot(es)
    ensures NoSharedSlot(Pruned(es, now))
  {
    assert Pairwise((a: Entry, b: Entry) => Distinct(a, b), es);
    FilterKeepsPairwise((a: Entry, b: Entry) => Distinct(a, b), e => Retained(now, e), es);
    var r := Filter(e => Retained(now, e), es);
    forall i, j | 0 <= i < j < |r| ensures Distinct(r[i], r[j]) {}
  }

  // ---- the recorded plan ----

  /** `b` continues `a`: entries stay at their place with their key and video, unbound entries
      are untouched, and what is new belongs to a listed video. */
  ghost predicate Evolves(a: seq<Entry>, b: seq<Entry>) {
    && |a| <= |b|
    && (forall i :: 0 <= i < |a| ==>
          && b[i].opKey == a[i].opKey && b[i].videoId == a[i].videoId
          && (a[i].videoId == "" ==> b[i] == a[i])
          && (a[i].videoId != "" && !a[i].status.Reserved? ==> !b[i].status.Reserved?))
    && (forall i :: |a| <= i < |b| ==>
          b[i].opKey == "" && b[i].videoId != "" && !b[i].status.Reserved?)
  }

  lemma SetVideoEvolves(l: Ledger, id: string, title: string, status: Status, slot: int,
                        previous: Option<int>, now: int)
    requires l.Valid() && id != "" && !status.Reserved?
    ensures Evolves(l.queue.entries, SetVideo(l, id, title, status, slot, previous, now).queue.entries)
  {
  }

  lemma EvolvesTransitive(a: seq<Entry>, b: seq<Entry>, c: seq<Entry>)
    requires Evolves(a, b) && Evolves(b, c)
    ensures Evolves(a, c)
  {
  }

  lemma {:induction false} RecordKeptEvolves(l: Ledger, kept: seq<Video>, now: int)
    requires l.Valid() && forall v :: v in kept ==> v.id != ""
    ensures Evolves(l.queue.entries, RecordKept(l, kept, now).queue.entries)
  {
    if |kept| > 0 {
      var (front, v) := (kept[..|kept| - 1], kept[|kept| - 1]);
      RecordKeptEvolves(l, front, now);
      var m := RecordKept(l, front, now);
      SetVideoEvolves(m, v.id, v.title, Scheduled, v.at, None, now);
      EvolvesTransitive(l.queue.entries, m.queue.entries, RecordKept(l, kept, now).queue.entries);
    }
  }

  lemma {:induction false} RecordMovesEvolves(l: Ledger, moves: seq<Move>, now: int)
    requires l.Valid() && forall m :: m in moves ==> m.videoId != ""
    ensures Evolves(l.queue.entries, RecordMoves(l, moves, now).queue.entries)
  {
    if |moves| > 0 {
      var (front, m) := (moves[..|moves| - 1], moves[|moves| - 1]);
      RecordMovesEvolves(l, front, now);
      var k := RecordMoves(l, front, now);
      SetVideoEvolves(k, m.videoId, m.title, Pending, m.to, Some(m.from), now);
      EvolvesTransitive(l.queue.entries, k.queue.entries, RecordMoves(l, moves, now).queue.entries);
    }
  }

  lemma PlanHasIds(p: Problem, vids: seq<Video>)
    requires p.Ready() && multiset(p.vs) == multiset(vids) && forall v :: v in vids ==> v.id != ""
    ensures var plan := p.St(|p.vs|).plan;
            && (forall v :: v in plan.kept ==> v.id != "")
            && (forall m :: m in plan.moves ==> m.videoId != "")
  {
    var plan := p.St(|p.vs|).plan;
    p.EveryVideoOnce(|p.vs|);
    assert p.vs[..|p.vs|] == p.vs;
    forall v | v in plan.kept ensures v.id != "" {
      assert v in multiset(plan.kept);
      assert v in multiset(vids);
    }
    forall m | m in plan.moves ensures m.videoId != "" {
      p.MovesAreTargets(|p.vs|);
      var i :| 0 <= i < |p.vs| && p.D(i).Moves? && m == p.MoveOf(i);
      assert p.vs[i] in multiset(vids);
    }
  }

  lemma PrepareEvolves(q: Queue, cfg: Config, req: Request)
    requires ReserveOp(cfg, req).Valid()
    ensures Evolves(StaleReleased(cfg, req, q.entries), Prepare(q, cfg, req).queue.entries)
  {
    var held := q.(entries := StaleReleased(cfg, req, q.entries));
    if req.listing.Some? {
      var occ := LiveOcc(cfg, req, q.entries);
      var p := PlanOf(cfg, req, occ, req.listing.value);
      var plan := p.St(|p.vs|).plan;
      PlanForReady(cfg.cal, req.now + cfg.minLead, occ, req.listing.value);
      PlanHasIds(p, req.listing.value);
      var l := Ledger(held, VideoIndex(held.entries));
      RecordKeptEvolves(l, plan.kept, req.now);
      var m := RecordKept(l, plan.kept, req.now);
      RecordMovesEvolves(m, plan.moves, req.now);
      EvolvesTransitive(held.entries, m.queue.entries, RecordPlan(held, plan, req.now).entries);
    }
  }

  lemma EvolvesKeepsInv(a: seq<Entry>, b: seq<Entry>)
    requires Inv(a) && Evolves(a, b)
    ensures Inv(b) && BindingsKept(a, b)
    ensures NoSharedSlot(a) ==> NoSharedSlot(b)
  {
    forall i, j | 0 <= i < j < |b| ensures OneKey(b[i], b[j]) {
      if j < |a| {
        assert OneKey(a[i], a[j]);
      }
    }
    forall e | e in b ensures Good(e) {
      var i :| 0 <= i < |b| && b[i] == e;
      if i < |a| {
        assert a[i] in a;
      }
    }
    forall x, y | x in a && y in b && x.opKey == y.opKey && x.opKey != "" && x.videoId != ""
      ensures y.videoId == x.videoId
    {
      var j :| 0 <= j < |b| && b[j] == y;
      assert a[j] in a;
      SameKeySameEntry(a, x, a[j]);
    }
    forall i | 0 <= i < |b| && b[i].Live() ensures i < |a| && a[i] == b[i] {}
  }

  lemma StaleReleasedKeepsInv(cfg: Config, req: Request, es: seq<Entry>)
    requires Inv(es)
    ensures Inv(StaleReleased(cfg, req, es)) && BindingsKept(es, StaleReleased(cfg, req, es))
    ensures NoSharedSlot(es) ==> NoSharedSlot(StaleReleased(cfg, req, es))
  {
    var r := StaleReleased(cfg, req, es);
    forall i, j | 0 <= i < j < |r| ensures OneKey(r[i], r[j]) {
      assert OneKey(es[i], es[j]);
    }
    forall e | e in r ensures Good(e) {
      var i :| 0 <= i < |r| && r[i] == e;
      assert es[i] in es;
    }
    forall x, y | x in es && y in r && x.opKey == y.opKey && x.opKey != "" && x.videoId != ""
      ensures y.videoId == x.videoId
    {
      var j :| 0 <= j < |r| && r[j] == y;
      assert es[j] in es;
      SameKeySameEntry(es, x, es[j]);
    }
  }

  /** Replacing the entry at `i` by one of the same operation. */
  lemma ReplaceKeepsInv(es: seq<Entry>, i: nat, e: Entry)
    requires Inv(es) && i < |es| && Good(e) && e.opKey == es[i].opKey
    ensures Inv(es[i := e])
    ensures es[i].videoId == "" || es[i].videoId == e.videoId ==> BindingsKept(es, es[i := e])
    ensures NoSharedSlot(es) && !e.Live() ==> NoSharedSlot(es[i := e])
    ensures NoSharedSlot(es) && es[i].Live() && e.slot == es[i].slot ==> NoSharedSlot(es[i := e])
  {
    var r := es[i := e];
    forall j, k | 0 <= j < k < |r| ensures OneKey(r[j], r[k]) {
      assert OneKey(es[j], es[k]);
    }
    if es[i].videoId == "" || es[i].videoId == e.videoId {
      forall x, y | x in es && y in r && x.opKey == y.opKey && x.opKey != "" && x.videoId != ""
        ensures y.videoId == x.videoId
      {
        var j :| 0 <= j < |r| && r[j] == y;
        assert es[j] in es && es[j].opKey == y.opKey;
        SameKeySameEntry(es, x, es[j]);
      }
    }
  }

  lemma AppendKeepsInv(es: seq<Entry>, e: Entry)
    requires Inv(es) && Good(e) && IndexByOp(es, e.opKey).None?
    ensures Inv(es + [e]) && BindingsKept(es, es + [e])
  {
    var r := es + [e];
    forall j, k | 0 <= j < k < |r| ensures OneKey(r[j], r[k]) {
      if k < |es| {
        assert OneKey(es[j], es[k]);
      }
    }
    forall x, y | x in es && y in r && x.opKey == y.opKey && x.opKey != "" && x.videoId != ""
      ensures y.videoId == x.videoId
    {
      var i :| 0 <= i < |es| && es[i] == x;
      assert y in es;
      SameKeySameEntry(es, x, y);
    }
  }

  // ---- each operation ----

  lemma AdoptKeepsInv(es: seq<Entry>, videoId: string, req: Request)
    requires Inv(es) && req.opKey != ""
    requires IndexByOp(es, req.opKey).Some? && es[IndexByOp(es, req.opKey).value].videoId == ""
    ensures Inv(Adopt(es, videoId, req)) && BindingsKept(es, Adopt(es, videoId, req))
    ensures NoSharedSlot(es) ==> NoSharedSlot(Adopt(es, videoId, req))
  {
    var keep := (e: Entry) => !(e.videoId == videoId && e.opKey != req.opKey);
    var kept := DropVideoExceptOp(es, videoId, req.opKey);
    FilterKeepsInv(keep, es);
    OwnEntrySurvivesDrop(es, videoId, req.opKey);
    var i := IndexByOp(kept, req.opKey).value;
    var own := es[IndexByOp(es, req.opKey).value];
    assert kept[i] in kept && own in es;
    SameKeySameEntry(es, own, kept[i]);
    ReplaceKeepsInv(kept, i, kept[i].(videoId := videoId, status := Scheduled, updatedAt := Some(req.now)));
    SubsetKeepsBindings(es, kept, Adopt(es, videoId, req));
    if NoSharedSlot(es) {
      assert Pairwise((a: Entry, b: Entry) => Distinct(a, b), es);
      FilterKeepsPairwise((a: Entry, b: Entry) => Distinct(a, b), keep, es);
      forall j, k | 0 <= j < k < |kept| ensures Distinct(kept[j], kept[k]) {}
    }
  }

  lemma SubsetKeepsBindings(es: seq<Entry>, kept: seq<Entry>, r: seq<Entry>)
    requires Inv(es) && Inv(kept) && BindingsKept(kept, r)
    requires forall e :: e in kept ==> e in es
    requires forall y :: y in r ==> exists x :: x in kept && x.opKey == y.opKey
    ensures BindingsKept(es, r)
  {
    forall x, y | x in es && y in r && x.opKey == y.opKey && x.opKey != "" && x.videoId != ""
      ensures y.videoId == x.videoId
    {
      var z :| z in kept && z.opKey == y.opKey;
      SameKeySameEntry(es, x, z);
    }
  }

  ghost predicate KeysKept(a: seq<Entry>, b: seq<Entry>) {
    forall x :: x in a ==> exists y :: y in b && y.opKey == x.opKey
  }

  lemma BindingsTransitive(a: seq<Entry>, b: seq<Entry>, c: seq<Entry>)
    requires BindingsKept(a, b) && KeysKept(a, b) && BindingsKept(b, c)
    ensures BindingsKept(a, c)
  {
    forall x, y | x in a && y in c && x.opKey == y.opKey && x.opKey != "" && x.videoId != ""
      ensures y.videoId == x.videoId
    {
      var z :| z in b && z.opKey == x.opKey;
    }
  }

  lemma HeldThenEvolved(a: seq<Entry>, held: seq<Entry>, es: seq<Entry>)
    requires Inv(held) && BindingsKept(a, held) && |held| == |a|
    requires forall i :: 0 <= i < |a| ==> held[i].opKey == a[i].opKey
    requires Evolves(held, es)
    ensures BindingsKept(a, es) && KeysKept(a, es)
  {
    EvolvesKeepsInv(held, es);
    forall x | x in a
      ensures (exists y :: y in held && y.opKey == x.opKey) && exists y :: y in es && y.opKey == x.opKey
    {
      var i :| 0 <= i < |a| && a[i] == x;
      assert held[i] in held && es[i] in es;
    }
    BindingsTransitive(a, held, es);
  }

  lemma PrepareKeepsInv(q: Queue, cfg: Config, req: Request)
    requires Inv(q.entries) && ReserveOp(cfg, req).Valid()
    ensures var es := Prepare(q, cfg, req).queue.entries;
            && Inv(es) && BindingsKept(q.entries, es) && KeysKept(q.entries, es)
            && (NoSharedSlot(q.entries) ==> NoSharedSlot(es))
  {
    hide Prepare;
    var held := StaleReleased(cfg, req, q.entries);
    StaleReleasedKeepsInv(cfg, req, q.entries);
    PrepareEvolves(q, cfg, req);
    EvolvesKeepsInv(held, Prepare(q, cfg, req).queue.entries);
    HeldThenEvolved(q.entries, held, Prepare(q, cfg, req).queue.entries);
  }

  /** The slot of the grant is new, rather than the one the operation already held. */
  predicate FreshGrant(p: Prepared, cfg: Config, req: Request)
    requires |cfg.cal.slots| > 0
  {
    var oi := IndexByOp(p.queue.entries, req.opKey);
    var minStart := req.now + cfg.minLead;
    && !(oi.Some? && Holds(p.queue.entries[oi.value], minStart))
    && p.occ.Alloc(cfg.cal, minStart).Some?
  }

  lemma GrantKeepsInv(q: Queue, cfg: Config, req: Request, free: Option<int>, moves: seq<Move>, kept: nat)
    requires Inv(q.entries) && req.opKey != ""
    requires var oi := IndexByOp(q.entries, req.opKey);
             oi.Some? ==> q.entries[oi.value].videoId == ""
    ensures var es := GrantFrom(q, cfg, req, free, moves, kept).0.entries;
            && Inv(es) && BindingsKept(q.entries, es)
            && (NoSharedSlot(q.entries)
                && (free.None? || (IndexByOp(q.entries, req.opKey).Some?
                                   && Holds(q.entries[IndexByOp(q.entries, req.opKey).value], req.now + cfg.minLead)))
                ==> NoSharedSlot(es))
  {
    hide BindingsKept, NoSharedSlot, Pairwise;
    var es := q.entries;
    var oi := IndexByOp(es, req.opKey);
    BindingsReflexive(es);
    if oi.Some? {
      var e := es[oi.value];
      assert e in es;
      if Holds(e, req.now + cfg.minLead) {
        ReplaceKeepsInv(es, oi.value, e.(attempts := e.attempts + 1, updatedAt := Some(req.now)));
      } else if free.Some? {
        ReplaceKeepsInv(es, oi.value,
                        e.(title := req.title, status := Reserved, slot := free,
                           attempts := e.attempts + 1, updatedAt := Some(req.now)));
      }
    } else if free.Some? {
      AppendKeepsInv(es, Entry(req.opKey, "", req.title, New, Reserved, free, None,
                               q.counter + 1, 1, Some(req.now)));
    }
  }

  /** The operation is not yet bound and no lost upload of it is listed: a slot is granted. */
  predicate Grants(q0: Queue, req: Request) {
    var oi := IndexByOp(q0.entries, req.opKey);
    !(oi.Some? && q0.entries[oi.value].videoId != "") && Candidate(q0.entries, req).None?
  }

  lemma SameIndex(a: seq<Entry>, es: seq<Entry>, opKey: string)
    requires |a| <= |es|
    requires forall i :: 0 <= i < |a| ==> es[i].opKey == a[i].opKey
    requires forall i :: |a| <= i < |es| ==> es[i].opKey != opKey
    ensures IndexByOp(es, opKey) == IndexByOp(a, opKey)
  {
  }

  lemma PrepareKeepsOwn(q: Queue, cfg: Config, req: Request)
    requires Inv(q.entries) && ReserveOp(cfg, req).Valid() && Grants(q, req)
    ensures var es := Prepare(q, cfg, req).queue.entries;
            var oi := IndexByOp(es, req.opKey);
            && oi == IndexByOp(q.entries, req.opKey)
            && (oi.Some? ==> es[oi.value] == q.entries[oi.value])
  {
    PrepareEvolves(q, cfg, req);
    var held := StaleReleased(cfg, req, q.entries);
    SameIndex(q.entries, held, req.opKey);
    SameIndex(held, Prepare(q, cfg, req).queue.entries, req.opKey);
  }

  lemma GrantAfter(before: seq<Entry>, q: Queue, cfg: Config, req: Request, free: Option<int>,
                   moves: seq<Move>, kept: nat)
    requires Inv(q.entries) && req.opKey != ""
    requires BindingsKept(before, q.entries) && KeysKept(before, q.entries)
    requires var oi := IndexByOp(q.entries, req.opKey);
             oi.Some? ==> q.entries[oi.value].videoId == ""
    ensures var es := GrantFrom(q, cfg, req, free, moves, kept).0.entries;
            Inv(es) && BindingsKept(before, es)
  {
    var es := GrantFrom(q, cfg, req, free, moves, kept).0.entries;
    assert Inv(es) && BindingsKept(q.entries, es) by {
      GrantKeepsInv(q, cfg, req, free, moves, kept);
    }
    BindingsTransitive(before, q.entries, es);
  }

  lemma GrantPathKeeps(q: Queue, cfg: Config, req: Request)
    requires Inv(q.entries) && ReserveOp(cfg, req).Valid() && Grants(q, req)
    ensures var es := Grant(Prepare(q, cfg, req), cfg, req).0.entries;
            && Inv(es) && BindingsKept(q.entries, es)
            && (NoSharedSlot(q.entries) && !FreshGrant(Prepare(q, cfg, req), cfg, req) ==> NoSharedSlot(es))
  {
    hide Prepare, Occ.Alloc, Inv, BindingsKept, KeysKept, NoSharedSlot, GrantFrom;
    PrepareKeepsInv(q, cfg, req);
    PrepareKeepsOwn(q, cfg, req);
    var p := Prepare(q, cfg, req);
    var free := p.occ.Alloc(cfg.cal, req.now + cfg.minLead);
    GrantAfter(q.entries, p.queue, cfg, req, free, p.moves, p.kept);
    GrantKeepsInv(p.queue, cfg, req, free, p.moves, p.kept);
  }

  lemma NoGrantPathKeeps(q: Queue, cfg: Config, req: Request)
    requires Inv(q.entries) && ReserveOp(cfg, req).Valid() && !Grants(q, req)
    ensures var es := AfterReservePruned(q, cfg, req).0.entries;
            Inv(es) && BindingsKept(q.entries, es) && (NoSharedSlot(q.entries) ==> NoSharedSlot(es))
  {
    var oi := IndexByOp(q.entries, req.opKey);
    BindingsReflexive(q.entries);
    if q.entries[oi.value].videoId == "" {
      AdoptKeepsInv(q.entries, Candidate(q.entries, req).value.id, req);
    }
  }

  /** What a reservation keeps of the entries that survive pruning: a bound operation stays
      bound to its video, and only a fresh grant can bring two uploads onto one slot. */
  lemma ReserveKeeps(q: Queue, cfg: Config, req: Request)
    requires Inv(q.entries) && ReserveOp(cfg, req).Valid()
    ensures var q0 := q.(entries := Pruned(q.entries, req.now));
            var es := AfterReserve(q, cfg, req).0.entries;
            && Inv(q0.entries) && Inv(es) && BindingsKept(q0.entries, es)
            && (NoSharedSlot(q.entries) ==>
                  && NoSharedSlot(q0.entries)
                  && (!(Grants(q0, req) && FreshGrant(Prepare(q0, cfg, req), cfg, req)) ==> NoSharedSlot(es)))
  {
    var q0 := q.(entries := Pruned(q.entries, req.now));
    PrunedKeepsInv(q.entries, req.now);
    if NoSharedSlot(q.entries) {
      PrunedKeepsSlots(q.entries, req.now);
    }
    if Grants(q0, req) {
      GrantPathKeeps(q0, cfg, req);
    } else {
      NoGrantPathKeeps(q0, cfg, req);
    }
  }

  lemma BindingsReflexive(es: seq<Entry>)
    requires Inv(es)
    ensures BindingsKept(es, es)
  {
    forall x, y | x in es && y in es && x.opKey == y.opKey && x.opKey != "" && x.videoId != ""
      ensures y.videoId == x.videoId
    {
      SameKeySameEntry(es, x, y);
    }
  }

  lemma CommitKeeps(q: Queue, opKey: string, videoId: string, at: int)
    requires Inv(q.entries) && opKey != ""
    ensures Inv(AfterCommit(q, opKey, videoId, at).entries)
    ensures NoSharedSlot(q.entries) ==> NoSharedSlot(AfterCommit(q, opKey, videoId, at).entries)
  {
    var i := IndexByOp(q.entries, opKey);
    if i.Some? {
      var e := q.entries[i.value];
      assert e in q.entries;
      ReplaceKeepsInv(q.entries, i.value,
                      e.(videoId := videoId, status := Scheduled, updatedAt := Some(at)));
    }
  }

  lemma ReleaseKeeps(q: Queue, opKey: string, at: int)
    requires Inv(q.entries) && opKey != ""
    ensures var es := AfterRelease(q, opKey, at).entries;
            Inv(es) && BindingsKept(q.entries, es) && (NoSharedSlot(q.entries) ==> NoSharedSlot(es))
  {
    var i := UnboundFrom(q.entries, opKey, 0);
    BindingsReflexive(q.entries);
    if i.Some? {
      var e := q.entries[i.value];
      assert e in q.entries;
      ReplaceKeepsInv(q.entries, i.value, e.(status := Failed, updatedAt := Some(at)));
    }
  }

  lemma OutcomeStepEvolves(es: seq<Entry>, o: Outcome, at: int)
    requires o.videoId != "" && !o.status.Reserved?
    ensures Evolves(es, Map(e => AfterOutcome(o, at, e), es))
  {
  }

  lemma {:induction false} OutcomesEvolve(es: seq<Entry>, outs: seq<Outcome>, at: int)
    requires OutcomesOp(outs, at).Valid()
    ensures Evolves(es, ApplyOutcomes(es, outs, at))
  {
    if |outs| > 0 {
      var (front, o) := (outs[..|outs| - 1], outs[|outs| - 1]);
      assert o in outs;
      OutcomesEvolve(es, front, at);
      OutcomeStepEvolves(ApplyOutcomes(es, front, at), o, at);
      EvolvesTransitive(es, ApplyOutcomes(es, front, at), ApplyOutcomes(es, outs, at));
    }
  }

  lemma OutcomesKeep(es: seq<Entry>, outs: seq<Outcome>, at: int)
    requires Inv(es) && OutcomesOp(outs, at).Valid()
    ensures var r := ApplyOutcomes(es, outs, at);
            Inv(r) && BindingsKept(es, r) && (NoSharedSlot(es) ==> NoSharedSlot(r))
  {
    OutcomesEvolve(es, outs, at);
    EvolvesKeepsInv(es, ApplyOutcomes(es, outs, at));
  }

  /** Over every run there is at most one entry per operation, and a reserved entry has no video. */
  lemma {:induction false} RunsKeepInv(q: Queue, ops: seq<Op>)
    requires Inv(q.entries) && forall op :: op in ops ==> op.Valid()
    ensures Inv(ApplyAll(q, ops).entries)
  {
    if |ops| > 0 {
      var (front, op) := (ops[..|ops| - 1], ops[|ops| - 1]);
      assert op in ops;
      RunsKeepInv(q, front);
      var m := ApplyAll(q, front);
      match op
      case ReserveOp(cfg, req) => ReserveKeeps(m, cfg, req);
      case CommitOp(opKey, videoId, at) => CommitKeeps(m, opKey, videoId, at);
      case ReleaseOp(opKey, at) => ReleaseKeeps(m, opKey, at);
      case OutcomesOp(outs, at) => OutcomesKeep(m.entries, outs, at);
    }
  }
}
