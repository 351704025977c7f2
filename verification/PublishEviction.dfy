/** The cap on the number of entries takes the slot of an upload in flight away: an instance from the empty queue. */
module PublishEviction {
  import opened Ordering
  import opened SlotCalendar
  import opened SlotOccupancy
  import opened Replan
  import opened PublishQueue
  import opened PublishRuns
  import opened PublishSlots
  import opened PublishPromises

  /** Seven o'clock, `k` + 1 days after the day of the uploads. */
  function Seven(k: nat): int { (k + 1) * 86400 + 3600 }

  /** Video IDs that differ in length. */
  function Name(k: nat): string { seq(k + 1, i => 'x') }

  function Daily(n: nat): seq<Video> {
    seq(n, k requires 0 <= k < n => Video(Name(k), "", Seven(k)))
  }

  lemma SevenIsSlot(k: nat)
    ensures DHAKA.IsSlot(Seven(k)) && DHAKA.Day(Seven(k)) == k + 1
  {
    assert DHAKA.slots[0].Offset() == 25200;
    assert Seven(k) + 21600 == (k + 1) * 86400 + 25200;
    assert Seven(k) == DHAKA.At(k + 1, DHAKA.slots[0].Offset());
  }

  // ---- a planned channel is left as it is ----

  /** The first `n` videos stay where they are. */
  lemma {:induction false} DailyStays(p: Problem, n: nat)
    requires |p.cal.slots| > 0 && n <= |p.vs| && p.minStart < Seven(0)
    requires forall k: nat :: p.cal.IsSlot(Seven(k)) && p.cal.Day(Seven(k)) == k + 1
    requires forall k :: 0 <= k < |p.vs| ==> p.vs[k].at == Seven(k)
    requires (forall t :: t in p.occ.used ==> t < Seven(0)) && forall d :: d > 0 ==> p.occ.Count(d) == 0
    ensures Stayed(p.St(n), p, n)
  {
    hide Calendar.IsSlot, Calendar.Day, Occ.Alloc, Seven, Problem.Advance, Stayed;
    if n == 0 {
      assert p.vs[..0] == [];
      NoneStayed(p);
    } else {
      DailyStays(p, n - 1);
      SevenAscends(n - 1);
      assert p.cal.IsSlot(Seven(n - 1)) && p.cal.Day(Seven(n - 1)) == n;
      OneStays(p, p.St(n - 1), n - 1);
    }
  }

  /** The first `n` videos are kept, and nothing of the days after them is taken. */
  ghost predicate Stayed(st: PlanState, p: Problem, n: nat)
    requires n <= |p.vs|
  {
    && st.plan == Plan([], p.vs[..n])
    && st.floor == (if n == 0 then p.minStart else Seven(n - 1))
    && (forall t :: t in st.occ.used ==> t < Seven(n))
    && (forall d :: d > n ==> st.occ.Count(d) == 0)
  }

  lemma NoneStayed(p: Problem)
    requires (forall t :: t in p.occ.used ==> t < Seven(0)) && forall d :: d > 0 ==> p.occ.Count(d) == 0
    ensures Stayed(PlanState(p.occ, p.minStart, Plan([], [])), p, 0)
  {
  }

  lemma OneStays(p: Problem, st: PlanState, k: nat)
    requires |p.cal.slots| > 0 && k < |p.vs| && p.minStart < Seven(0) && p.vs[k].at == Seven(k)
    requires p.cal.IsSlot(Seven(k)) && p.cal.Day(Seven(k)) == k + 1 && Stayed(st, p, k)
    ensures Stayed(p.Advance(st, p.vs[k]), p, k + 1)
  {
    hide Calendar.IsSlot, Calendar.Day, Occ.Alloc, Seven;
    SevenAscends(k);
    var v := p.vs[k];
    assert p.Decide(st.occ, st.floor, v) == Stays;
    assert p.vs[..k + 1] == p.vs[..k] + [v];
    var next := st.occ.TakeLocked(p.cal, v.at);
    forall d | d > k + 1 ensures next.Count(d) == 0 {
      assert st.occ.Count(d) == 0;
    }
  }

  lemma SevenAscends(k: nat)
    ensures (k > 0 ==> Seven(k - 1) < Seven(k)) && Seven(0) <= Seven(k) < Seven(k + 1)
  {
  }

  // ---- every listed video gets an entry ----

  ghost predicate Fresh(index: map<string, nat>, vids: seq<Video>) {
    && (forall i :: 0 <= i < |vids| ==> vids[i].id !in index)
    && (forall i, j :: 0 <= i < j < |vids| ==> vids[i].id != vids[j].id)
  }

  predicate Listed(e: Entry, v: Video) {
    e.opKey == "" && e.videoId == v.id && e.status == Scheduled && e.slot == Some(v.at) && e.previous == None
  }

  lemma {:induction false} KeptIsAppended(l: Ledger, kept: seq<Video>, now: int)
    requires l.Valid() && Fresh(l.index, kept)
    ensures Appended(l, kept, RecordKept(l, kept, now))
  {
    hide SetVideo, Appended, Fresh, Ledger.Valid;
    if |kept| == 0 {
      AppendNone(l);
      assert kept == [];
    } else {
      var (front, v) := (kept[..|kept| - 1], kept[|kept| - 1]);
      FreshFront(l.index, kept);
      KeptIsAppended(l, front, now);
      AppendOne(l, front, v, RecordKept(l, front, now), now);
      assert front + [v] == kept;
    }
  }

  lemma FreshFront(index: map<string, nat>, vids: seq<Video>)
    requires Fresh(index, vids) && |vids| > 0
    ensures var (front, v) := (vids[..|vids| - 1], vids[|vids| - 1]);
            && Fresh(index, front) && v.id !in index && forall i :: 0 <= i < |front| ==> front[i].id != v.id
  {
  }

  lemma AppendNone(l: Ledger)
    ensures Appended(l, [], l)
  {
  }

  ghost predicate Appended(l: Ledger, kept: seq<Video>, r: Ledger) {
    var (es, rs) := (l.queue.entries, r.queue.entries);
    && |rs| == |es| + |kept| && rs[..|es|] == es
    && (forall i :: |es| <= i < |rs| ==> Listed(rs[i], kept[i - |es|]))
    && (forall id :: id in r.index ==> id in l.index || exists i :: 0 <= i < |kept| && kept[i].id == id)
  }

  lemma AppendOne(l: Ledger, front: seq<Video>, v: Video, r: Ledger, now: int)
    requires r.Valid() && Appended(l, front, r) && v.id !in l.index
    requires forall i :: 0 <= i < |front| ==> front[i].id != v.id
    ensures Appended(l, front + [v], SetVideo(r, v.id, v.title, Scheduled, v.at, None, now))
  {
    hide Ledger.Valid;
    var r' := SetVideo(r, v.id, v.title, Scheduled, v.at, None, now);
    assert v.id !in r.index;
    forall id | id in r'.index && id !in l.index ensures exists i :: 0 <= i < |front + [v]| && (front + [v])[i].id == id {
      if id == v.id {
        assert (front + [v])[|front|].id == id;
      } else {
        var i :| 0 <= i < |front| && front[i].id == id;
        assert (front + [v])[i].id == id;
      }
    }
  }

  // ---- the three reservations ----

  const A := ReserveOp(DEFAULTS, Request("a", "", 3000, None))

  /** The second upload's reservation sees `n` planned videos. */
  function B(n: nat): Op { ReserveOp(DEFAULTS, Request("b", "", 3010, Some(Daily(n)))) }

  const C := ReserveOp(DEFAULTS, Request("c", "", 3020, None))

  const FIRST := Entry("a", "", "", New, Reserved, Some(3600), None, 1, 1, Some(3000))

  lemma {:induction false} AllKept(keep: Entry -> bool, es: seq<Entry>)
    requires forall e :: e in es ==> keep(e)
    ensures Filter(keep, es) == es
  {
    if |es| > 0 {
      AllKept(keep, es[..|es| - 1]);
      assert es[|es| - 1] in es;
      assert es == es[..|es| - 1] + [es[|es| - 1]];
    }
  }

  lemma DailyIsSorted(n: nat)
    ensures Sort(Daily(n), VideoLess) == Daily(n)
  {
    forall i, j | 0 <= i < j < n ensures !VideoLess(Daily(n)[j], Daily(n)[i]) {
    }
    SortOfSorted(Daily(n), VideoLess);
  }

  lemma NothingStale(cfg: Config, es: seq<Entry>, req: Request)
    requires forall e :: e in es ==> !Stale(cfg, req, e)
    ensures StaleReleased(cfg, req, es) == es
  {
    StaleAt(cfg, req, es);
  }

  lemma TakeOne(cal: Calendar, m: int, e: Entry)
    requires e.Live() && e.slot.Some? && m < e.slot.value
    ensures TakeLive(cal, m, Occ({}, map[]), [e]) == Occ({}, map[]).Take(cal, e.slot.value)
  {
    assert [e][..0] == [];
  }

  /** The first reservation stands on day 0, and the plan keeps every video. */
  lemma PlannedStays(n: nat)
    ensures StaleReleased(DEFAULTS, B(n).req, [FIRST]) == [FIRST]
    ensures var p := PlanOf(DEFAULTS, B(n).req, LiveOcc(DEFAULTS, B(n).req, [FIRST]), Daily(n));
            p.vs == Daily(n) && p.St(n).plan == Plan([], Daily(n))
  {
    hide Calendar.IsSlot, Problem.St, Sort;
    SevenIsFirst(3130);
    NothingStale(DEFAULTS, [FIRST], B(n).req);
    DailyIsSorted(n);
    var occ := LiveOcc(DEFAULTS, B(n).req, [FIRST]);
    assert occ == Occ({}, map[]).Take(DHAKA, 3600) by {
      TakeOne(DHAKA, 3130, FIRST);
    }
    forall k: nat ensures DHAKA.IsSlot(Seven(k)) && DHAKA.Day(Seven(k)) == k + 1 {
      SevenIsSlot(k);
    }
    var p := PlanOf(DEFAULTS, B(n).req, occ, Daily(n));
    DailyStays(p, n);
    assert p.vs[..n] == Daily(n);
  }

  /** The first entry, one for each listed video, and the second upload's own. */
  ghost predicate Shape(es: seq<Entry>, n: nat, slot: int) {
    && |es| == n + 2 && es[0] == FIRST
    && (forall i :: 0 < i <= n ==> Listed(es[i], Daily(n)[i - 1]))
    && es[n + 1].Live() && es[n + 1].opKey == "b" && es[n + 1].slot == Some(slot) && es[n + 1].updatedAt == Some(3010)
  }

  lemma PreparedShape(n: nat)
    ensures var p := Prepare(Queue(1, [FIRST]), DEFAULTS, B(n).req);
            && |p.queue.entries| == n + 1 && p.queue.entries[0] == FIRST
            && forall i :: 0 < i <= n ==> Listed(p.queue.entries[i], Daily(n)[i - 1])
  {
    hide RecordKept, Problem.St, PlanOf, LiveOcc;
    var q := Queue(1, [FIRST]);
    PlannedStays(n);
    var l := Ledger(q, VideoIndex([FIRST]));
    assert [FIRST][..0] == [];
    KeptIsAppended(l, Daily(n), 3010);
    var es := RecordKept(l, Daily(n), 3010).queue.entries;
    assert es[..1][0] == es[0];
    assert Prepare(q, DEFAULTS, B(n).req).queue.entries == es;
  }

  /** The second reservation: `n` videos and its own entry go behind the first. */
  lemma SecondGrant(n: nat)
    requires n < 7600
    ensures var (q, a) := AfterReserve(Queue(1, [FIRST]), DEFAULTS, B(n).req);
            && B(n).Valid() && a.Granted? && a.slot.Some? && 3130 <= a.slot.value && a.slot.value != 3600
            && Shape(q.entries, n, a.slot.value)
  {
    hide Prepare, Pruned, Occ.Alloc, AfterReserve, Daily, FreshGrant, Calendar.IsSlot, Calendar.First, Listed, Inv;
    var (q, req) := (Queue(1, [FIRST]), B(n).req);
    SevenIsFirst(3130);
    ListedIds(n);
    FirstIsKept();
    GrantedBehind(q, DEFAULTS, req);
    PreparedShape(n);
    FreshSlotIsFree(q, DEFAULTS, req);
    FreshSlotAvoidsLive(q, DEFAULTS, req, Prepare(q, DEFAULTS, req).queue.entries[0]);
  }

  /** The entries of a queue from `rs` on: these, and a new reservation. */
  ghost predicate Behind(es: seq<Entry>, rs: seq<Entry>, req: Request, slot: Option<int>) {
    && |es| == |rs| + 1 && (forall i :: 0 <= i < |rs| ==> es[i] == rs[i])
    && es[|rs|].Live() && es[|rs|].opKey == req.opKey && es[|rs|].slot == slot && es[|rs|].updatedAt == Some(req.now)
  }

  /** A new operation with a short enough listing is granted a fresh slot, and its entry goes behind the others. */
  lemma GrantedBehind(q: Queue, cfg: Config, req: Request)
    requires ReserveOp(cfg, req).Valid() && Inv(q.entries) && Pruned(q.entries, req.now) == q.entries
    requires IndexByOp(q.entries, req.opKey).None? && req.listing.Some? && |req.listing.value| < 7600
    ensures var (r, p) := (AfterReserve(q, cfg, req), Prepare(q, cfg, req));
            && r.1.Granted? && r.1.slot.Some? && FreshGrant(p, cfg, req)
            && r.1.slot == p.occ.Alloc(cfg.cal, MinStart(cfg, req)) && Behind(r.0.entries, p.queue.entries, req, r.1.slot)
  {
    hide Prepare, Pruned, Occ.Alloc, AfterReserve, Inv, AllUnfree;
    assert q.(entries := Pruned(q.entries, req.now)) == q;
    NewGrants(q, req);
    ReservePaths(q, cfg, req);
    NeverFull(q, cfg, req);
    PrepareKeepsOwn(q, cfg, req);
    var p := Prepare(q, cfg, req);
    GrantReplacesOwn(p.queue, cfg, req, p.occ.Alloc(cfg.cal, MinStart(cfg, req)), p.moves, p.kept);
  }

  lemma NewGrants(q: Queue, req: Request)
    requires IndexByOp(q.entries, req.opKey).None?
    ensures Grants(q, req)
  {
  }

  lemma ListedIds(n: nat)
    ensures |Daily(n)| == n && forall v :: v in Daily(n) ==> v.id != ""
  {
  }

  lemma FirstIsKept()
    ensures Pruned([FIRST], 3010) == [FIRST] && Inv([FIRST])
  {
    AllKept(e => Retained(3010, e), [FIRST]);
  }

  /** An operation without an entry. */
  lemma NotListed(es: seq<Entry>, opKey: string)
    requires forall e :: e in es ==> e.opKey != opKey
    ensures IndexByOp(es, opKey).None?
  {
  }

  // ---- the third reservation ----

  /** What a later reservation finds taken of the listed videos lies on later days. */
  lemma {:induction false} KnownOnLaterDays(cal: Calendar, now: int, occ: Occ, es: seq<Entry>, n: nat, from: nat)
    requires forall k: nat :: cal.Day(Seven(k)) == k + 1
    requires from + |es| <= n && forall i :: 0 <= i < |es| ==> Listed(es[i], Daily(n)[from + i])
    ensures var r := TakeKnown(cal, now, occ, es);
            r.Count(0) == occ.Count(0) && (3600 in r.used ==> 3600 in occ.used)
  {
    if |es| > 0 {
      var front := es[..|es| - 1];
      KnownOnLaterDays(cal, now, occ, front, n, from);
      var k := from + |es| - 1;
      assert Listed(es[|es| - 1], Daily(n)[k]) && Daily(n)[k].at == Seven(k);
      assert cal.Day(Seven(k)) == k + 1;
    }
  }

  lemma {:induction false} NoLiveTaken(cal: Calendar, m: int, es: seq<Entry>)
    requires forall e :: e in es ==> !e.Live()
    ensures TakeLive(cal, m, Occ({}, map[]), es) == Occ({}, map[])
  {
    if |es| > 0 {
      NoLiveTaken(cal, m, es[..|es| - 1]);
      assert es[|es| - 1] in es;
    }
  }

  /** Only the second upload's slot can stand on day 0. */
  lemma SevenStillFree(counter: int, es: seq<Entry>, n: nat, from: nat, slot: int)
    requires |es| > 0 && from + |es| - 1 <= n && slot != 3600
    requires forall i :: 0 <= i < |es| - 1 ==> Listed(es[i], Daily(n)[from + i])
    requires var e := es[|es| - 1]; e.Live() && e.opKey == "b" && e.slot == Some(slot) && e.updatedAt == Some(3010)
    ensures var p := Prepare(Queue(counter, es), DEFAULTS, C.req);
            p.queue == Queue(counter, es) && p.moves == [] && p.kept == 0 && p.occ.Alloc(DHAKA, 3140) == Some(3600)
  {
    hide Calendar.First, Calendar.IsSlot, Listed, Daily, TakeKnown;
    var (front, e) := (es[..|es| - 1], es[|es| - 1]);
    SevenIsFirst(3140);
    ListedAreBound(es, n, from);
    NothingStale(DEFAULTS, es, C.req);
    NoLiveTaken(DHAKA, 3140, front);
    forall k: nat ensures DHAKA.Day(Seven(k)) == k + 1 {
      SevenIsSlot(k);
    }
    var live := TakeLive(DHAKA, 3140, Occ({}, map[]), es);
    assert live.Count(0) <= 1 && 3600 !in live.used;
    KnownOnLaterDays(DHAKA, 3020, live, front, n, from);
    assert TakeKnown(DHAKA, 3020, live, es) == TakeKnown(DHAKA, 3020, live, front) by {
      KnownSkipsLive(DHAKA, 3020, live, es);
    }
    FreeSevenIsFirst(TakeKnown(DHAKA, 3020, live, es));
  }

  lemma KnownSkipsLive(cal: Calendar, now: int, occ: Occ, es: seq<Entry>)
    requires |es| > 0 && es[|es| - 1].Live()
    ensures TakeKnown(cal, now, occ, es) == TakeKnown(cal, now, occ, es[..|es| - 1])
  {
  }

  lemma ListedAreBound(es: seq<Entry>, n: nat, from: nat)
    requires |es| > 0 && from + |es| - 1 <= n
    requires forall i :: 0 <= i < |es| - 1 ==> Listed(es[i], Daily(n)[from + i])
    ensures forall e :: e in es[..|es| - 1] ==> e.opKey == "" && !e.Live()
  {
  }

  lemma FreeSevenIsFirst(occ: Occ)
    requires 3600 !in occ.used && occ.Count(0) <= 1
    ensures occ.Alloc(DHAKA, 3140) == Some(3600)
  {
    SevenIsFirst(3140);
    assert occ.Free(DHAKA, 3600);
  }

  /** Nothing is too old, so the newest 400 of the `n` + 2 entries are left. */
  lemma ThirdPrunes(es: seq<Entry>, n: nat, slot: int)
    requires Shape(es, n, slot) && 400 <= n
    ensures Pruned(es, 3020) == es[n - 398..]
  {
    var keep := (e: Entry) => Retained(3020, e);
    forall e | e in es ensures keep(e) {
      var i :| 0 <= i < |es| && es[i] == e;
      if 0 < i <= n {
        assert Daily(n)[i - 1].at == Seven(i - 1);
      }
    }
    AllKept(keep, es);
  }

  /** With the first entry gone, its slot is granted again. */
  lemma ThirdGrant(q: Queue, n: nat, slot: int)
    requires Shape(q.entries, n, slot) && 400 <= n && slot != 3600
    ensures AfterReserve(q, DEFAULTS, C.req).1 == Granted(Some(3600), [], 0)
  {
    hide Prepare, Pruned, Occ.Alloc, Daily, Listed;
    var es := q.entries[n - 398..];
    ThirdPrunes(q.entries, n, slot);
    ListedIds(n);
    forall i | 0 <= i < |es| - 1 ensures Listed(es[i], Daily(n)[n - 399 + i]) {
      assert es[i] == q.entries[n - 398 + i];
    }
    SevenStillFree(q.counter, es, n, n - 399, slot);
    ListedAreBound(es, n, n - 399);
    forall e | e in es ensures e.opKey != "c" {
      var i :| 0 <= i < |es| && es[i] == e;
      assert i < |es| - 1 ==> e in es[..|es| - 1];
    }
    NotListed(es, "c");
  }

  /** No earliest start of the three is a slot at all, so none of them meets the boundary case. */
  lemma NoClashHere(q: Queue, op: Op)
    requires op.Valid() && op.ReserveOp? && op.cfg == DEFAULTS && 3000 <= op.req.now < 3480
    ensures !Clashes(q, op)
  {
    hide Prepare, Pruned, Grants, FreshGrant, Calendar.First, Calendar.IsSlot;
    NoSlotYet(MinStart(op.cfg, op.req));
  }

  lemma NoSlotYet(start: int)
    requires 3000 <= start < 3600
    ensures !DHAKA.IsSlot(start)
  {
    SevenIsFirst(start);
    FirstIsFirst(DHAKA, start);
  }

  /** The three one after the other. */
  lemma ThreeOps(q: Queue, h: Promises, a: Op, b: Op, c: Op)
    requires a.Valid() && b.Valid() && c.Valid()
    ensures var (q1, h1) := (Apply(q, a), Promised(q, h, a));
            var (q2, h2) := (Apply(q1, b), Promised(q1, h1, b));
            && ApplyAll(q, [a, b, c][..0]) == q && ApplyAll(q, [a, b, c][..1]) == q1
            && ApplyAll(q, [a, b, c][..2]) == q2
            && PromisedAll(q, h, [a, b, c]) == Promised(q2, h2, c)
  {
    hide Apply, Promised;
    assert [a, b, c][..2] == [a, b] && [a, b][..1] == [a] && [a][..0] == [] && [a, b, c][..1] == [a];
    assert PromisedAll(q, h, []) == h;
    assert PromisedAll(q, h, [a]) == Promised(q, h, a);
    assert PromisedAll(q, h, [a, b]) == Promised(Apply(q, a), Promised(q, h, a), b);
  }

  lemma FirstUpload()
    ensures AfterReserve(Queue(0, []), DEFAULTS, A.req) == (Queue(1, [FIRST]), Granted(Some(3600), [], 0))
  {
    hide AfterReserve;
    NextUpload(DEFAULTS, Queue(0, []), A.req);
    assert WithNew(Queue(0, []), A.req, 3600) == Queue(1, [FIRST]);
  }

  lemma PromiseGranted(q: Queue, h: Promises, op: Op)
    requires op.ReserveOp? && |op.cfg.cal.slots| > 0
    ensures var a := AfterReserve(q, op.cfg, op.req).1;
            a.Granted? && a.slot.Some? ==>
              Promised(q, h, op) == Current(h, op.cfg, op.req)[op.req.opKey := Promise(a.slot.value, op.req.now)]
  {
    hide AfterReserve, Current;
  }

  /** From an empty queue with the default settings: an upload is promised the next 07:00; ten seconds later
      another one finds `n` planned videos on the channel; ten seconds later a third is promised the same 07:00.
      The boundary case is not involved. */
  lemma EvictionIsReachable(n: nat)
    requires 400 <= n <= 500
    ensures var (q, ops) := (Queue(0, []), [A, B(n), C]);
            && A.Valid() && B(n).Valid() && C.Valid()
            && !Clashes(ApplyAll(q, ops[..0]), A) && !Clashes(ApplyAll(q, ops[..1]), B(n))
            && !Clashes(ApplyAll(q, ops[..2]), C)
            && var h := PromisedAll(q, map[], ops);
               "a" in h && "c" in h && h["a"].slot == 3600 && h["c"].slot == 3600
  {
    hide AfterReserve, Daily, Clashes, Shape, Calendar.First, Calendar.IsSlot, ApplyAll, PromisedAll, Promised;
    SevenIsFirst(3120);
    ListedIds(n);
    ThreeOps(Queue(0, []), map[], A, B(n), C);
    FirstUpload();
    SecondGrant(n);
    var (q2, a2) := AfterReserve(Queue(1, [FIRST]), DEFAULTS, B(n).req);
    ThirdGrant(q2, n, a2.slot.value);
    PromiseGranted(Queue(0, []), map[], A);
    var h1 := Promised(Queue(0, []), map[], A);
    assert "a" in h1 && h1["a"] == Promise(3600, 3000);
    PromiseGranted(Queue(1, [FIRST]), h1, B(n));
    var h2 := Promised(Queue(1, [FIRST]), h1, B(n));
    assert "a" in h2 && h2["a"] == Promise(3600, 3000);
    PromiseGranted(q2, h2, C);
    NoClashHere(Queue(0, []), A);
    NoClashHere(Queue(1, [FIRST]), B(n));
    NoClashHere(q2, C);
  }
}
