/** Killing the engine and recovering it from its last checkpoint, any number of times. */
module CrashRecovery {
  import opened Ordering
  import opened CheckpointEngine

  /** One node start, as a downstream service sees it. */
  datatype Start = Start(node: string, input: Output, op: OpId)

  /** What is delivered, whatever the operation ID. */
  datatype Delivery = Delivery(node: string, input: Output)

  function Starts(events: seq<Event>): seq<Start> {
    if |events| == 0 then []
    else (match events[0] case Started(n, i, op) => [Start(n, i, op)] case Stored(_) => []) + Starts(events[1..])
  }

  lemma {:induction false} StartsConcat(a: seq<Event>, b: seq<Event>)
    ensures Starts(a + b) == Starts(a) + Starts(b)
  {
    if |a| > 0 {
      assert (a + b)[1..] == a[1..] + b;
      StartsConcat(a[1..], b);
    } else {
      assert a + b == b;
    }
  }

  function Told(starts: seq<Start>): seq<Delivery> {
    seq(|starts|, i requires 0 <= i < |starts| => Delivery(starts[i].node, starts[i].input))
  }

  /** Repeated starts under one operation ID, seen as one. */
  function Collapse(starts: seq<Start>): seq<Start> {
    if |starts| <= 1 then starts
    else (if starts[0].op == starts[1].op then [] else [starts[0]]) + Collapse(starts[1..])
  }

  /** The newest checkpoint among the events, or the one that was there before them. */
  function Disk(events: seq<Event>, ck: Checkpoint): Checkpoint {
    if |events| == 0 then ck
    else if events[|events| - 1].Stored? then events[|events| - 1].ck
    else Disk(events[..|events| - 1], ck)
  }

  lemma {:induction false} DiskConcat(a: seq<Event>, b: seq<Event>, ck: Checkpoint)
    ensures Disk(a + b, ck) == Disk(b, Disk(a, ck))
  {
    if |b| > 0 {
      assert (a + b)[..|a + b| - 1] == a + b[..|b| - 1];
      DiskConcat(a, b[..|b| - 1], ck);
    } else {
      assert a + b == a;
    }
  }

  datatype Fate =
    | Ended(ending: Ending, outputs: map<string, Json>)
    | FoundDone(outputs: map<string, Json>)
    | Rejected(ck: Checkpoint)

  datatype Trace = Trace(events: seq<Event>, fate: Fate)

  function Min(a: nat, b: nat): nat { if a < b then a else b }

  /** A pass from `ck`, killed after `cuts[0]` events and then recovered, and so on; with no cut left
      the pass runs to its end. */
  function Passes(x: Execution, ck: Checkpoint, cuts: seq<nat>): Trace
    decreases |cuts|, 0
  {
    var r := x.Run(x.Resume(ck));
    if |cuts| == 0 then Trace(r.events, Ended(r.ending, r.outputs))
    else
      var p := r.events[..Min(cuts[0], |r.events|)];
      var rest := Recover(x, Disk(p, ck), cuts[1..]);
      Trace(p + rest.events, rest.fate)
  }

  /** Recovery from what is on disk. */
  function Recover(x: Execution, ck: Checkpoint, cuts: seq<nat>): Trace
    decreases |cuts|, 1
  {
    if !x.Valid(ck) then Trace([], Rejected(ck))
    else if ck.mark.Success? then Trace([], FoundDone(ck.outputs))
    else if |ck.pending| == 0 then Trace([], Rejected(ck))
    else Passes(x, ck, cuts)
  }

  // ---- one pass ----

  /** The head of the queue is a node the engine will start. */
  predicate Live(x: Execution, s: Loop) {
    |s.queue| > 0 && x.Runs(s.queue[0].node) && x.wf.nodes[s.queue[0].node].registered
  }

  function First(x: Execution, s: Loop): Start
    requires |s.queue| > 0
  {
    Start(s.queue[0].node, s.queue[0].input, x.OpFor(s))
  }

  /** Only the head carries an operation ID, and not one from a later step. */
  ghost predicate OpsOk(s: Loop) {
    && (forall i :: 1 <= i < |s.queue| ==> s.queue[i].op == None)
    && (|s.queue| > 0 && s.queue[0].op.Some? ==> s.queue[0].op.value.step <= s.steps)
  }

  /** No start of the run from `s` has an earlier operation step than this. */
  function Base(x: Execution, s: Loop): nat
    requires |s.queue| > 0
  {
    x.OpFor(s).step
  }

  lemma {:induction false} RouteHasNoOps(conns: seq<Conn>, out: Output)
    ensures forall item :: item in Route(conns, out) ==> item.op == None
  {
    if |conns| > 0 {
      RouteHasNoOps(conns[..|conns| - 1], out);
    }
  }

  lemma {:induction false} RouteBranchHasNoOps(conns: seq<Conn>, branch: nat, items: seq<Json>)
    ensures forall item :: item in RouteBranch(conns, branch, items) ==> item.op == None
  {
    if |conns| > 0 {
      RouteBranchHasNoOps(conns[..|conns| - 1], branch, items);
    }
  }

  /** One turn that goes on: it is skipped without a trace, or it starts the head of the queue. */
  lemma TurnShape(x: Execution, s: Loop)
    requires |s.queue| > 0 && OpsOk(s) && x.Iterate(s).Next?
    ensures var t := x.Iterate(s);
            && s.steps + 1 <= x.maxSteps && t.loop.steps == s.steps + 1
            && (forall i :: 0 <= i < |t.loop.queue| ==> t.loop.queue[i].op == None)
            && (!Live(x, s) ==> t.events == [])
            && (Live(x, s) ==> t.events == x.StartEvents(s)
                               + (if |t.loop.queue| > 0 then []
                                  else [Stored(Checkpoint([], t.loop.outputs, t.loop.attempts, s.steps + 1, Running))]))
  {
    hide Execution.StartEvents, Execution.Try, Route, RouteBranch, Bumped, Recorded;
    var item := s.queue[0];
    if Live(x, s) {
      match x.Try(item.node, item.input, s.outputs, 1)
      case Done(out) => RouteHasNoOps(x.wf.From(item.node), out);
      case Fails(_, message) =>
        RouteBranchHasNoOps(x.wf.From(item.node), if x.wf.nodes[item.node].errorOutput then 1 else 0, [ErrorItem(message)]);
    }
  }

  lemma StopShape(x: Execution, s: Loop)
    requires |s.queue| > 0 && x.Iterate(s).Stop?
    ensures var t := x.Iterate(s);
            && (t.events == [] || (Live(x, s) && s.steps < x.maxSteps && t.events == x.StartEvents(s)))
            && (t.ending.StepLimit? <==> s.steps + 1 > x.maxSteps)
            && (Live(x, s) && s.steps + 1 <= x.maxSteps ==> t.events == x.StartEvents(s))
            && !t.ending.Succeeded?
  {
    hide Execution.StartEvents, Execution.Try, Route, RouteBranch, Bumped, Recorded;
  }

  lemma StartEventsShape(x: Execution, s: Loop)
    requires Live(x, s)
    ensures Starts(x.StartEvents(s)) == [First(x, s)]
    ensures 2 <= |x.StartEvents(s)| <= 3
    ensures x.StartEvents(s)[0] == Stored(x.Boundary(s)) && x.StartEvents(s)[1].Started?
    ensures |x.StartEvents(s)| == 3 ==> x.StartEvents(s)[2] == Stored(x.Boundary(s).(mark := Waiting))
  {
    hide Execution.Boundary, Execution.OpFor;
    var e := x.StartEvents(s);
    assert Starts(e[2..]) == [];
    assert e[1..][1..] == e[2..];
    assert Starts(e[1..]) == [First(x, s)] + Starts(e[1..][1..]);
    assert Starts(e) == [] + Starts(e[1..]);
  }

  lemma TurnStarts(x: Execution, s: Loop)
    requires |s.queue| > 0 && OpsOk(s) && x.Iterate(s).Next?
    ensures Starts(x.Iterate(s).events) == (if Live(x, s) then [First(x, s)] else [])
    ensures Starts(x.Run(s).events) == Starts(x.Iterate(s).events) + Starts(x.Run(x.Iterate(s).loop).events)
  {
    hide Execution.StartEvents, Execution.Iterate;
    var t := x.Iterate(s);
    TurnShape(x, s);
    if Live(x, s) {
      StartEventsShape(x, s);
      StartsConcat(x.StartEvents(s), t.events[|x.StartEvents(s)|..]);
      assert t.events == x.StartEvents(s) + t.events[|x.StartEvents(s)|..];
    }
    StartsConcat(t.events, x.Run(t.loop).events);
  }

  ghost predicate Strict(starts: seq<Start>) {
    forall i, j :: 0 <= i < j < |starts| ==> starts[i].op.step < starts[j].op.step
  }

  /** What is true of the starts of one pass from `s`. */
  ghost predicate StartsFrom(x: Execution, s: Loop, starts: seq<Start>) {
    && Strict(starts)
    && |starts| <= (if s.steps < x.maxSteps then x.maxSteps - s.steps else 0)
    && (|s.queue| == 0 ==> starts == [])
    && (|s.queue| > 0 ==> forall i :: 0 <= i < |starts| ==>
         starts[i].op.step >= Base(x, s) && (starts[i].op.step == Base(x, s) ==> starts[i] == First(x, s)))
    && (|starts| > 0 && Live(x, s) ==> starts[0] == First(x, s))
    && (Live(x, s) && s.steps < x.maxSteps ==> |starts| > 0)
  }

  lemma StartsStep(x: Execution, s: Loop, next: Loop, starts: seq<Start>, more: seq<Start>)
    requires |s.queue| > 0 && OpsOk(s) && s.steps < x.maxSteps && next.steps == s.steps + 1
    requires forall i :: 0 <= i < |next.queue| ==> next.queue[i].op == None
    requires StartsFrom(x, next, more)
    requires starts == (if Live(x, s) then [First(x, s)] else []) + more
    ensures StartsFrom(x, s, starts)
  {
    hide Live;
    assert Base(x, s) <= s.steps + 1;
    assert |next.queue| > 0 ==> Base(x, next) == s.steps + 2;
    forall i | 0 <= i < |more| ensures more[i].op.step >= s.steps + 2 {
    }
  }

  /** Within one pass every start has a later operation step than the ones before it, and the step
      budget pays for the starts. */
  lemma {:induction false} RunStarts(x: Execution, s: Loop)
    requires OpsOk(s)
    ensures StartsFrom(x, s, Starts(x.Run(s).events))
    decreases x.maxSteps + 1 - s.steps
  {
    hide Execution.StartEvents, Execution.Iterate, StartsFrom;
    if |s.queue| == 0 {
      EmptyStarts(x, s);
    } else if x.Iterate(s).Next? {
      TurnShape(x, s);
      TurnStarts(x, s);
      RunStarts(x, x.Iterate(s).loop);
      StartsStep(x, s, x.Iterate(s).loop, Starts(x.Run(s).events), Starts(x.Run(x.Iterate(s).loop).events));
    } else {
      StopStarts(x, s);
    }
  }

  lemma EmptyStarts(x: Execution, s: Loop)
    requires |s.queue| == 0
    ensures StartsFrom(x, s, Starts(x.Run(s).events))
  {
    hide Execution.Run, Execution.OpFor;
    NothingStarted(x, s);
  }

  lemma StopStarts(x: Execution, s: Loop)
    requires |s.queue| > 0 && OpsOk(s) && x.Iterate(s).Stop?
    ensures StartsFrom(x, s, Starts(x.Run(s).events))
  {
    hide Execution.StartEvents, Execution.Iterate;
    StopShape(x, s);
    if Live(x, s) {
      StartEventsShape(x, s);
    }
  }

  /** Where a crash leaves the disk: as it was, at the boundary of the turn from `turn`, or with all
      the work done. */
  datatype Crash = Untouched | Reenters(turn: Loop, before: seq<Start>) | Emptied

  ghost predicate CrashOk(x: Execution, s: Loop, p: seq<Event>, ck: Checkpoint, c: Crash) {
    var (r, disk) := (x.Run(s), Disk(p, ck));
    match c
    case Untouched => disk == ck && Starts(p) == []
    case Reenters(w, before) =>
      var n := x.Run(w);
      && Live(x, w) && OpsOk(w) && s.steps + |before| <= w.steps < x.maxSteps
      && Starts(r.events) == before + Starts(n.events)
      && n.ending == r.ending && n.outputs == r.outputs && n.steps == r.steps
      && (disk == x.Boundary(w) || disk == x.Boundary(w).(mark := Waiting))
      && (Starts(p) == before || Starts(p) == before + [First(x, w)])
    case Emptied =>
      && |disk.pending| == 0 && r.ending.Succeeded? && disk.outputs == r.outputs
      && Starts(p) == Starts(r.events) && |p| > 0 && p[|p| - 1] == Stored(disk)
      && (!disk.mark.Success? ==> disk.mark.Running? && |p| == |r.events| - 1)
  }

  /** A crash between the first and the last event of a started turn comes back to that turn. */
  lemma CutInTurn(x: Execution, s: Loop, k: nat, ck: Checkpoint)
    requires Live(x, s) && 1 <= k <= |x.StartEvents(s)|
    ensures var p := x.StartEvents(s)[..k];
            && (Disk(p, ck) == x.Boundary(s) || Disk(p, ck) == x.Boundary(s).(mark := Waiting))
            && (Starts(p) == [] || Starts(p) == [First(x, s)])
            && (k >= 2 ==> Starts(p) == [First(x, s)])
  {
    hide Execution.Boundary, Execution.OpFor, Execution.StartEvents;
    StartEventsShape(x, s);
    var e := x.StartEvents(s);
    var p := e[..k];
    assert p[..|p| - 1] == e[..k - 1];
    assert e[..1] == [e[0]];
    if k == 1 {
      assert Starts(p[1..]) == [];
    } else {
      StartsConcat(p, e[k..]);
      assert e == p + e[k..];
      assert Starts(e[k..]) == [];
    }
    if k == 2 {
      assert Disk(p[..1], ck) == x.Boundary(s);
    }
  }

  lemma LaterFacts(x: Execution, s: Loop, p: seq<Event>, ck: Checkpoint)
    requires OpsOk(s) && |s.queue| > 0 && x.Iterate(s).Next? && p <= x.Run(x.Iterate(s).loop).events
    ensures var (t, whole) := (x.Iterate(s), x.Iterate(s).events + p);
            var first := if Live(x, s) then [First(x, s)] else [];
            && Starts(whole) == first + Starts(p) && Disk(whole, ck) == Disk(p, Disk(t.events, ck))
            && Starts(x.Run(s).events) == first + Starts(x.Run(t.loop).events)
            && x.Run(s).events == t.events + x.Run(t.loop).events
            && x.Run(s).ending == x.Run(t.loop).ending && x.Run(s).outputs == x.Run(t.loop).outputs
            && x.Run(s).steps == x.Run(t.loop).steps
  {
    hide Execution.StartEvents, Execution.Iterate, Execution.Boundary, Execution.OpFor, Live;
    var t := x.Iterate(s);
    TurnStarts(x, s);
    StartsConcat(t.events, p);
    DiskConcat(t.events, p, ck);
  }

  /** The first turn is over, nothing was stored since, and there is more to do. */
  lemma CutBetween(x: Execution, s: Loop, p: seq<Event>, ck: Checkpoint)
    requires OpsOk(s) && Live(x, s) && x.Iterate(s).Next? && p <= x.Run(x.Iterate(s).loop).events
    requires |x.Iterate(s).loop.queue| > 0
    requires CrashOk(x, x.Iterate(s).loop, p, Disk(x.Iterate(s).events, ck), Untouched)
    ensures CrashOk(x, s, x.Iterate(s).events + p, ck, Reenters(s, []))
  {
    hide Execution.StartEvents, Execution.Iterate, Execution.Boundary, Execution.OpFor, Execution.Run, Disk, Starts;
    var t := x.Iterate(s);
    TurnShape(x, s);
    LaterFacts(x, s, p, ck);
    StartEventsShape(x, s);
    CutInTurn(x, s, |t.events|, ck);
    assert t.events == x.StartEvents(s)[..|t.events|];
    assert Starts(t.events + p) == [] + [First(x, s)];
  }

  /** The first turn emptied the queue and the final checkpoint is missing. */
  lemma CutBeforeEnd(x: Execution, s: Loop, p: seq<Event>, ck: Checkpoint)
    requires OpsOk(s) && Live(x, s) && x.Iterate(s).Next? && p <= x.Run(x.Iterate(s).loop).events
    requires |x.Iterate(s).loop.queue| == 0
    requires CrashOk(x, x.Iterate(s).loop, p, Disk(x.Iterate(s).events, ck), Untouched)
    ensures CrashOk(x, s, x.Iterate(s).events + p, ck, Emptied)
  {
    hide Execution.StartEvents, Execution.Iterate, Execution.Boundary, Execution.OpFor;
    var t := x.Iterate(s);
    TurnShape(x, s);
    LaterFacts(x, s, p, ck);
    assert Disk(t.events, ck).mark.Running?;
    assert Starts(x.Run(t.loop).events) == [];
    assert Starts(t.events + p) == [First(x, s)] + [];
  }

  /** A crash after the first turn is a crash of the run that follows it. */
  lemma CutLater(x: Execution, s: Loop, p: seq<Event>, ck: Checkpoint, later: Crash) returns (c: Crash)
    requires OpsOk(s) && |s.queue| > 0 && x.Iterate(s).Next? && p <= x.Run(x.Iterate(s).loop).events
    requires CrashOk(x, x.Iterate(s).loop, p, Disk(x.Iterate(s).events, ck), later)
    ensures CrashOk(x, s, x.Iterate(s).events + p, ck, c)
  {
    hide Execution.StartEvents, Execution.Iterate, Execution.Boundary, Execution.OpFor, Execution.Run, Live, CrashOk;
    if !Live(x, s) {
      SkippedLater(x, s, p, ck, later);
      return later;
    }
    match later
    case Untouched =>
      if |x.Iterate(s).loop.queue| > 0 {
        CutBetween(x, s, p, ck);
        c := Reenters(s, []);
      } else {
        CutBeforeEnd(x, s, p, ck);
        c := Emptied;
      }
    case Reenters(w, before) =>
      c := Reenters(w, [First(x, s)] + before);
      StartedLater(x, s, p, ck, later, c);
    case Emptied =>
      c := Emptied;
      StartedLater(x, s, p, ck, later, c);
  }

  /** Behind a turn that left no trace. */
  lemma SkippedLater(x: Execution, s: Loop, p: seq<Event>, ck: Checkpoint, later: Crash)
    requires OpsOk(s) && |s.queue| > 0 && x.Iterate(s).Next? && p <= x.Run(x.Iterate(s).loop).events && !Live(x, s)
    requires CrashOk(x, x.Iterate(s).loop, p, Disk(x.Iterate(s).events, ck), later)
    ensures CrashOk(x, s, x.Iterate(s).events + p, ck, later)
  {
    hide Execution.StartEvents, Execution.Iterate, Execution.Boundary, Execution.OpFor, Execution.Run, Live;
    TurnShape(x, s);
    LaterFacts(x, s, p, ck);
    assert x.Iterate(s).events + p == p;
  }

  /** Behind a turn that started its node. */
  lemma StartedLater(x: Execution, s: Loop, p: seq<Event>, ck: Checkpoint, later: Crash, c: Crash)
    requires OpsOk(s) && |s.queue| > 0 && x.Iterate(s).Next? && p <= x.Run(x.Iterate(s).loop).events && Live(x, s)
    requires CrashOk(x, x.Iterate(s).loop, p, Disk(x.Iterate(s).events, ck), later)
    requires match later
             case Untouched => false
             case Reenters(w, before) => c == Reenters(w, [First(x, s)] + before)
             case Emptied => c == Emptied
    ensures CrashOk(x, s, x.Iterate(s).events + p, ck, c)
  {
    hide Execution.StartEvents, Execution.Iterate, Execution.Boundary, Execution.OpFor, Execution.Run, Live;
    TurnShape(x, s);
    LaterFacts(x, s, p, ck);
  }

  /** Every way one pass can be cut. */
  lemma {:induction false} CutAt(x: Execution, s: Loop, k: nat, ck: Checkpoint) returns (c: Crash)
    requires OpsOk(s) && k <= |x.Run(s).events|
    ensures CrashOk(x, s, x.Run(s).events[..k], ck, c)
    decreases x.maxSteps + 1 - s.steps
  {
    hide Execution.StartEvents, Execution.Iterate, Execution.Boundary, Execution.OpFor;
    var p := x.Run(s).events[..k];
    if k == 0 {
      return Untouched;
    }
    if |s.queue| == 0 {
      assert p == x.Run(s).events;
      return Emptied;
    }
    var t := x.Iterate(s);
    if t.Next? && k >= |t.events| {
      TurnShape(x, s);
      var later := CutAt(x, t.loop, k - |t.events|, Disk(t.events, ck));
      c := CutLater(x, s, x.Run(t.loop).events[..k - |t.events|], ck, later);
      assert p == t.events + x.Run(t.loop).events[..k - |t.events|];
    } else {
      c := CutFirst(x, s, k, ck);
    }
  }

  lemma CutFirst(x: Execution, s: Loop, k: nat, ck: Checkpoint) returns (c: Crash)
    requires OpsOk(s) && |s.queue| > 0 && 0 < k <= |x.Run(s).events|
    requires x.Iterate(s).Next? ==> k < |x.Iterate(s).events|
    ensures CrashOk(x, s, x.Run(s).events[..k], ck, c)
  {
    hide Execution.StartEvents, Execution.Iterate, Execution.Boundary, Execution.OpFor;
    if x.Iterate(s).Next? {
      TurnShape(x, s);
    } else {
      StopShape(x, s);
    }
    assert x.Run(s).events[..k] == x.StartEvents(s)[..k];
    CutInTurn(x, s, k, ck);
    return Reenters(s, []);
  }

  // ---- the run does not depend on the counters ----

  /** The same work and the same outputs; step, attempt and operation counters may differ. */
  ghost predicate Same(s: Loop, t: Loop) {
    && s.outputs == t.outputs && |s.queue| == |t.queue|
    && forall i :: 0 <= i < |s.queue| ==> s.queue[i].node == t.queue[i].node && s.queue[i].input == t.queue[i].input
  }

  lemma SameTurn(x: Execution, s: Loop, t: Loop)
    requires Same(s, t) && |s.queue| > 0 && s.steps < x.maxSteps && t.steps < x.maxSteps
    ensures var (a, b) := (x.Iterate(s), x.Iterate(t));
            && (a.Next? ==> b.Next? && Same(a.loop, b.loop))
            && (a.Stop? ==> b.Stop? && a.ending == b.ending)
  {
    hide Execution.StartEvents, Execution.Try, Route, RouteBranch, Bumped, Recorded;
  }

  lemma ToldConcat(a: seq<Start>, b: seq<Start>)
    ensures Told(a + b) == Told(a) + Told(b)
  {
  }

  lemma {:induction false} StepsGrow(x: Execution, s: Loop)
    ensures var r := x.Run(s);
            r.steps >= s.steps + (if |s.queue| > 0 && !r.ending.StepLimit? then 1 else 0)
    decreases x.maxSteps + 1 - s.steps
  {
    hide Execution.StartEvents, Execution.Try, Route, RouteBranch, Bumped, Recorded;
    if |s.queue| > 0 && x.Iterate(s).Next? {
      StepsGrow(x, x.Iterate(s).loop);
    }
  }

  /** A run that starts `d` steps later, on the same work, delivers the same and ends the same. */
  lemma {:induction false} RunSame(x: Execution, s: Loop, t: Loop, d: nat)
    requires Same(s, t) && OpsOk(s) && OpsOk(t) && t.steps == s.steps + d
    requires !x.Run(s).ending.StepLimit? && x.Run(s).steps + d <= x.maxSteps
    ensures var (a, b) := (x.Run(s), x.Run(t));
            && b.ending == a.ending && b.outputs == a.outputs && b.steps == a.steps + d
            && Told(Starts(b.events)) == Told(Starts(a.events))
    decreases x.maxSteps + 1 - s.steps
  {
    hide Execution.Iterate, Execution.StartEvents, Live, OpsOk;
    if |s.queue| > 0 {
      StepsGrow(x, s);
      SameTurn(x, s, t);
      SameLive(x, s, t);
      if x.Iterate(s).Next? {
        var (n, m) := (x.Iterate(s).loop, x.Iterate(t).loop);
        NextOpsOk(x, s);
        NextOpsOk(x, t);
        RunSame(x, n, m, d);
        TurnStarts(x, s);
        TurnStarts(x, t);
        ToldConcat(if Live(x, s) then [First(x, s)] else [], Starts(x.Run(n).events));
        ToldConcat(if Live(x, t) then [First(x, t)] else [], Starts(x.Run(m).events));
      } else {
        StopTold(x, s);
        StopTold(x, t);
      }
    }
  }

  lemma NextOpsOk(x: Execution, s: Loop)
    requires |s.queue| > 0 && OpsOk(s) && x.Iterate(s).Next?
    ensures OpsOk(x.Iterate(s).loop) && x.Iterate(s).loop.steps == s.steps + 1 <= x.maxSteps
  {
    hide Execution.Iterate;
    TurnShape(x, s);
  }

  lemma SameLive(x: Execution, s: Loop, t: Loop)
    requires Same(s, t) && |s.queue| > 0
    ensures Live(x, s) == Live(x, t)
    ensures Told([First(x, s)]) == Told([First(x, t)])
  {
  }

  lemma StopTold(x: Execution, s: Loop)
    requires |s.queue| > 0 && x.Iterate(s).Stop? && s.steps < x.maxSteps
    ensures Starts(x.Run(s).events) == if Live(x, s) then [First(x, s)] else []
  {
    hide Execution.Iterate, Execution.StartEvents;
    StopShape(x, s);
    if Live(x, s) {
      StartEventsShape(x, s);
    }
  }

  // ---- any number of crashes ----

  /** A checkpoint the engine can have stored: work to do, within the budget, and operation IDs only
      where the engine puts them. */
  ghost predicate Storable(x: Execution, ck: Checkpoint) {
    |ck.pending| > 0 && !ck.mark.Success? && ck.steps <= x.maxSteps && OpsOk(x.Resume(ck))
  }

  /** Coming back to a boundary starts the same delivery under the same ID, one step later. */
  lemma BoundaryResumes(x: Execution, w: Loop, ck: Checkpoint)
    requires Live(x, w) && OpsOk(w) && w.steps < x.maxSteps
    requires ck == x.Boundary(w) || ck == x.Boundary(w).(mark := Waiting)
    ensures var s := x.Resume(ck);
            && Storable(x, ck) && Live(x, s) && Same(w, s) && s.steps == w.steps + 1
            && First(x, s) == First(x, w) && !ck.mark.Success?
  {
  }

  /** Equal steps mean the same start; later in the trace never means an earlier step. */
  ghost predicate Ordered(starts: seq<Start>) {
    forall i, j :: 0 <= i < j < |starts| ==>
      starts[i].op.step <= starts[j].op.step && (starts[i].op.step == starts[j].op.step ==> starts[i] == starts[j])
  }

  /** What is true of the starts of any number of passes from `s`. */
  ghost predicate AllStartsFrom(x: Execution, s: Loop, starts: seq<Start>)
    requires |s.queue| > 0
  {
    && Ordered(starts)
    && |starts| + s.steps <= x.maxSteps
    && (forall i :: 0 <= i < |starts| ==>
         starts[i].op.step >= Base(x, s) && (starts[i].op.step == Base(x, s) ==> starts[i] == First(x, s)))
    && (|starts| > 0 && Live(x, s) ==> starts[0] == First(x, s))
  }

  lemma UncutStarts(x: Execution, s: Loop, starts: seq<Start>)
    requires |s.queue| > 0 && s.steps <= x.maxSteps && StartsFrom(x, s, starts)
    ensures AllStartsFrom(x, s, starts)
  {
  }

  /** The starts before a crash, then the starts from the boundary it comes back to. */
  lemma ReenteredStarts(x: Execution, s: Loop, w: Loop, before: seq<Start>, after: seq<Start>,
                        cut: seq<Start>, t: Loop, rest: seq<Start>)
    requires |s.queue| > 0 && |w.queue| > 0 && Live(x, t)
    requires StartsFrom(x, s, before + after) && |after| > 0 && after[0] == First(x, w)
    requires cut == before || cut == before + [First(x, w)]
    requires s.steps + |before| <= w.steps < x.maxSteps && t.steps == w.steps + 1 && First(x, t) == First(x, w)
    requires rest == [] || AllStartsFrom(x, t, rest)
    ensures AllStartsFrom(x, s, cut + rest)
  {
    hide Live, Execution.OpFor;
    CutStarts(x, s, First(x, w), before, after, cut);
    if rest != [] {
      OrderedJoin(cut, rest, First(x, w));
    } else {
      assert cut + rest == cut;
    }
  }

  /** Every start of the cut comes before `f`, or is `f`. */
  ghost predicate UpTo(cut: seq<Start>, f: Start) {
    forall i :: 0 <= i < |cut| ==> cut[i].op.step < f.op.step || cut[i] == f
  }

  lemma CutStarts(x: Execution, s: Loop, f: Start, before: seq<Start>, after: seq<Start>, cut: seq<Start>)
    requires |s.queue| > 0 && StartsFrom(x, s, before + after) && |after| > 0 && after[0] == f
    requires cut == before || cut == before + [f]
    ensures Ordered(cut) && UpTo(cut, f) && f.op.step >= Base(x, s) && (f.op.step == Base(x, s) ==> f == First(x, s))
    ensures forall i :: 0 <= i < |cut| ==>
              cut[i].op.step >= Base(x, s) && (cut[i].op.step == Base(x, s) ==> cut[i] == First(x, s))
    ensures Live(x, s) ==> f == First(x, s) || (|before| > 0 && before[0] == First(x, s))
  {
    hide Live, Execution.OpFor;
    var all := before + after;
    assert all[|before|] == f;
    assert forall i :: 0 <= i < |cut| ==> cut[i] == all[i];
    assert |before| > 0 ==> all[0] == before[0];
  }

  lemma OrderedJoin(cut: seq<Start>, rest: seq<Start>, f: Start)
    requires Ordered(cut) && UpTo(cut, f) && Ordered(rest)
    requires forall i :: 0 <= i < |rest| ==> rest[i].op.step >= f.op.step && (rest[i].op.step == f.op.step ==> rest[i] == f)
    ensures Ordered(cut + rest)
  {
    var joined := cut + rest;
    forall i, j | 0 <= i < j < |joined|
      ensures joined[i].op.step <= joined[j].op.step
      ensures joined[i].op.step == joined[j].op.step ==> joined[i] == joined[j]
    {
      if i < |cut| <= j {
        assert joined[i] == cut[i] && joined[j] == rest[j - |cut|];
      }
    }
  }

  /** What the first pass of several leaves to the later ones. */
  lemma FirstPass(x: Execution, ck: Checkpoint, cuts: seq<nat>) returns (p: seq<Event>, disk: Checkpoint, c: Crash)
    requires Storable(x, ck) && |cuts| > 0
    ensures var (s, rest) := (x.Resume(ck), Recover(x, disk, cuts[1..]));
            && p <= x.Run(s).events && Disk(p, ck) == disk && CrashOk(x, s, p, ck, c)
            && Passes(x, ck, cuts) == Trace(p + rest.events, rest.fate)
            && Starts(Passes(x, ck, cuts).events) == Starts(p) + Starts(rest.events)
  {
    hide Execution.Run, CrashOk;
    var s := x.Resume(ck);
    var k := Min(cuts[0], |x.Run(s).events|);
    p := x.Run(s).events[..k];
    disk := Disk(p, ck);
    c := CutAt(x, s, k, ck);
    StartsConcat(p, Recover(x, disk, cuts[1..]).events);
  }

  /** Operation IDs are one-to-one with deliveries over any number of crashes: starts come in the order
      of their steps, two starts share an ID only if they are the same delivery, and all passes
      together start no more nodes than the step budget allows. */
  lemma {:induction false} OneIdPerDelivery(x: Execution, ck: Checkpoint, cuts: seq<nat>)
    requires Storable(x, ck)
    ensures AllStartsFrom(x, x.Resume(ck), Starts(Passes(x, ck, cuts).events))
    decreases |cuts|
  {
    hide Execution.Run, Execution.Boundary, Live, StartsFrom, AllStartsFrom, OpsOk, Disk, First;
    var s := x.Resume(ck);
    RunStarts(x, s);
    if |cuts| == 0 {
      UncutStarts(x, s, Starts(x.Run(s).events));
    } else {
      var p, disk, c := FirstPass(x, ck, cuts);
      var rest := Recover(x, disk, cuts[1..]);
      match c
      case Untouched =>
        if rest.events != [] {
          OneIdPerDelivery(x, ck, cuts[1..]);
        } else {
          NoStarts(x, s);
        }
        assert Starts(p) + Starts(rest.events) == Starts(rest.events);
      case Emptied =>
        UncutStarts(x, s, Starts(x.Run(s).events));
        assert Starts(p) + Starts(rest.events) == Starts(p);
      case Reenters(w, before) =>
        BoundaryResumes(x, w, disk);
        RunStarts(x, w);
        WillStart(x, w);
        if rest.events != [] {
          OneIdPerDelivery(x, disk, cuts[1..]);
        }
        ReenteredStarts(x, s, w, before, Starts(x.Run(w).events), Starts(p), x.Resume(disk), Starts(rest.events));
    }
  }

  lemma NoStarts(x: Execution, s: Loop)
    requires |s.queue| > 0 && s.steps <= x.maxSteps
    ensures AllStartsFrom(x, s, [])
  {
  }

  lemma WillStart(x: Execution, w: Loop)
    requires Live(x, w) && OpsOk(w) && w.steps < x.maxSteps
    ensures var starts := Starts(x.Run(w).events); |starts| > 0 && starts[0] == First(x, w)
  {
    hide Execution.Run;
    RunStarts(x, w);
  }

  // ---- crash equivalence ----

  lemma CollapseStep(f: Start, b: seq<Start>)
    ensures Collapse([f] + b) == (if |b| > 0 && f.op == b[0].op then [] else [f]) + Collapse(b)
  {
    assert ([f] + b)[1..] == b;
    assert |b| > 0 ==> ([f] + b)[1] == b[0];
  }

  lemma {:induction false} CollapseStrict(a: seq<Start>, b: seq<Start>)
    requires Strict(a) && (|a| > 0 && |b| > 0 ==> a[|a| - 1].op != b[0].op)
    ensures Collapse(a + b) == a + Collapse(b)
  {
    hide Collapse;
    if |a| == 0 {
      assert a + b == b;
    } else {
      var tail := a[1..];
      CollapseStrict(tail, b);
      CollapseStep(a[0], tail + b);
      assert a + b == [a[0]] + (tail + b);
      assert a + Collapse(b) == [a[0]] + (tail + Collapse(b));
      assert |tail| > 0 ==> (tail + b)[0] == a[1];
    }
  }

  lemma StrictCollapse(a: seq<Start>)
    requires Strict(a)
    ensures Collapse(a) == a
  {
    CollapseStrict(a, []);
    assert a + [] == a;
  }

  /** The starts up to a crash and the starts after it collapse into those of the unbroken run. */
  lemma JoinCollapse(before: seq<Start>, f: Start, cut: seq<Start>, rest: seq<Start>)
    requires Strict(before) && (|before| > 0 ==> before[|before| - 1].op != f.op)
    requires cut == before || cut == before + [f]
    requires |rest| > 0 && rest[0] == f
    ensures Collapse(cut + rest) == before + Collapse(rest)
  {
    hide Collapse, Strict;
    CollapseStrict(before, rest);
    if cut != before {
      assert cut + rest == before + ([f] + rest);
      CollapseStep(f, rest);
      CollapseStrict(before, [f] + rest);
    }
  }

  lemma StrictParts(before: seq<Start>, later: seq<Start>, cut: seq<Start>)
    requires Strict(before + later) && |later| > 0 && (cut == before || cut == before + [later[0]])
    ensures Strict(before) && Strict(cut) && (|before| > 0 ==> before[|before| - 1].op != later[0].op)
    ensures cut <= before + later
  {
    var all := before + later;
    assert forall i :: 0 <= i < |before| ==> all[i] == before[i];
    assert all[|before|] == later[0];
    assert forall i :: 0 <= i < |cut| ==> all[i] == cut[i];
  }

  /** What a trace of passes from `ck` must look like, given the unbroken run. */
  ghost predicate Equivalent(x: Execution, u: Outcome, t: Trace) {
    var (told, all) := (Told(Collapse(Starts(t.events))), Told(Starts(u.events)));
    match t.fate
    case Ended(ending, outputs) => told == all && ending == u.ending && outputs == u.outputs
    case FoundDone(outputs) => told == all && u.ending.Succeeded? && outputs == u.outputs
    case Rejected(ck) =>
      if x.Valid(ck) then told == all && u.ending.Succeeded? && ck.outputs == u.outputs && ck.pending == []
      else told <= all
  }

  /** A trace cut inside the turn that starts `later[0]`, and the trace that comes back to it. */
  lemma ReenteredTrace(x: Execution, u: Outcome, before: seq<Start>, later: seq<Start>, cut: seq<Start>,
                       n: Outcome, rest: Trace, all: Trace)
    requires Starts(u.events) == before + later && Strict(before + later) && |later| > 0
    requires cut == before || cut == before + [later[0]]
    requires all.fate == rest.fate && Starts(all.events) == cut + Starts(rest.events)
    requires Starts(rest.events) != [] ==> Starts(rest.events)[0] == later[0]
    requires Told(Starts(n.events)) == Told(later) && n.ending == u.ending && n.outputs == u.outputs
    requires Equivalent(x, n, rest) || (rest.events == [] && rest.fate.Rejected? && !x.Valid(rest.fate.ck))
    ensures Equivalent(x, u, all)
  {
    hide Execution.Valid, Collapse, Told, Strict;
    var again := Starts(rest.events);
    StrictParts(before, later, cut);
    ToldConcat(before, later);
    if |again| > 0 {
      JoinCollapse(before, later[0], cut, again);
      ToldConcat(before, Collapse(again));
    } else {
      assert cut + again == cut;
      StrictCollapse(cut);
      ToldPrefix(cut, before + later);
      NothingAgain(again, later);
    }
  }

  lemma ToldPrefix(a: seq<Start>, b: seq<Start>)
    requires a <= b
    ensures Told(a) <= Told(b)
  {
  }

  lemma NothingAgain(again: seq<Start>, later: seq<Start>)
    requires |again| == 0 && |later| > 0
    ensures Told(Collapse(again)) == [] && Told(Collapse(again)) != Told(later)
  {
    assert |Told(later)| == |later|;
  }

  /** A run killed at any points, and resumed each time from its last checkpoint, ends as the unbroken
      run does, with the same outputs and the same deliveries, as long as the step budget also pays
      one step for every crash. Recovery gives up only on a checkpoint that fails its checks, or on
      one without pending work, and then all the work is done. */
  lemma {:induction false} CrashEquivalence(x: Execution, ck: Checkpoint, cuts: seq<nat>)
    requires Storable(x, ck)
    requires var u := x.Run(x.Resume(ck)); !u.ending.StepLimit? && u.steps + |cuts| <= x.maxSteps
    ensures Equivalent(x, x.Run(x.Resume(ck)), Passes(x, ck, cuts))
    decreases |cuts|
  {
    hide Execution.Run, Execution.Boundary, Live, OpsOk, First, Execution.Valid, Disk, Equivalent, AllStartsFrom, Same;
    var s := x.Resume(ck);
    RunStarts(x, s);
    if |cuts| == 0 {
      UncutRun(x, x.Run(s));
    } else {
      var p, disk, c := FirstPass(x, ck, cuts);
      var (rest, all) := (Recover(x, disk, cuts[1..]), Passes(x, ck, cuts));
      match c
      case Untouched =>
        assert Starts(p) + Starts(rest.events) == Starts(rest.events);
        if x.Valid(ck) {
          CrashEquivalence(x, ck, cuts[1..]);
          SameTrace(x, x.Run(s), rest, all);
        } else {
          NothingDone(x, x.Run(s), ck, all);
        }
      case Emptied =>
        assert Starts(p) + Starts(rest.events) == Starts(p);
        EmptiedRun(x, x.Run(s), disk, all);
      case Reenters(w, before) =>
        BoundaryResumes(x, w, disk);
        RunSame(x, w, x.Resume(disk), 1);
        if x.Valid(disk) {
          CrashEquivalence(x, disk, cuts[1..]);
          AgainFirst(x, disk, cuts[1..]);
        }
        WillStart(x, w);
        ReenteredTrace(x, x.Run(s), before, Starts(x.Run(w).events), Starts(p), x.Run(x.Resume(disk)), rest, all);
    }
  }

  // ---- crash equivalence when the budget runs out ----

  /** The run `m` is `n` again, or runs into the step limit with a part of its deliveries. */
  ghost predicate SameOrShort(n: Outcome, m: Outcome) {
    var (told, all) := (Told(Starts(m.events)), Told(Starts(n.events)));
    (m.ending == n.ending && m.outputs == n.outputs && told == all) || (m.ending.StepLimit? && told <= all)
  }

  /** Beginning later on the same work, with whatever budget is left. */
  lemma {:induction false} RunSameOrShort(x: Execution, s: Loop, t: Loop)
    requires Same(s, t) && OpsOk(s) && OpsOk(t) && s.steps <= t.steps
    ensures SameOrShort(x.Run(s), x.Run(t))
    decreases x.maxSteps + 1 - s.steps
  {
    hide Execution.Iterate, Execution.StartEvents, Live, OpsOk, Told;
    if |s.queue| == 0 {
      NothingStarted(x, s);
      NothingStarted(x, t);
    } else if t.steps >= x.maxSteps {
      LimitStops(x, t);
      NothingTold(Starts(x.Run(s).events));
    } else {
      SameTurn(x, s, t);
      SameLive(x, s, t);
      if x.Iterate(s).Next? {
        var (n, m) := (x.Iterate(s).loop, x.Iterate(t).loop);
        NextOpsOk(x, s);
        NextOpsOk(x, t);
        RunSameOrShort(x, n, m);
        TurnStarts(x, s);
        TurnStarts(x, t);
        ToldConcat(if Live(x, s) then [First(x, s)] else [], Starts(x.Run(n).events));
        ToldConcat(if Live(x, t) then [First(x, t)] else [], Starts(x.Run(m).events));
      } else {
        StopTold(x, s);
        StopTold(x, t);
      }
    }
  }

  lemma NothingStarted(x: Execution, s: Loop)
    requires |s.queue| == 0
    ensures Starts(x.Run(s).events) == [] && x.Run(s).ending == Succeeded && x.Run(s).outputs == s.outputs
  {
    hide Execution.Iterate;
    var ck := Checkpoint([], s.outputs, s.attempts, s.steps, Success);
    assert x.Run(s).events == [Stored(ck)];
    assert [Stored(ck)][1..] == [];
  }

  lemma LimitStops(x: Execution, t: Loop)
    requires |t.queue| > 0 && t.steps >= x.maxSteps
    ensures x.Run(t).ending == StepLimit && Starts(x.Run(t).events) == []
  {
  }

  lemma NothingTold(all: seq<Start>)
    ensures Told([]) <= Told(all)
  {
  }

  /** The trace is equivalent to the unbroken run, or ends at the step limit with a part of its deliveries. */
  ghost predicate EquivalentOrShort(x: Execution, u: Outcome, t: Trace) {
    Equivalent(x, u, t)
    || (t.fate.Ended? && t.fate.ending.StepLimit? && Told(Collapse(Starts(t.events))) <= Told(Starts(u.events)))
  }

  lemma ShortOfSame(x: Execution, n: Outcome, m: Outcome, t: Trace)
    requires SameOrShort(n, m) && EquivalentOrShort(x, m, t)
    ensures EquivalentOrShort(x, n, t)
  {
    hide Told, Collapse, Starts, Execution.Valid;
  }

  /** As `ReenteredTrace`, for a trace that comes back and then runs into the limit. */
  lemma ReenteredShort(x: Execution, u: Outcome, before: seq<Start>, later: seq<Start>, cut: seq<Start>,
                       rest: Trace, all: Trace)
    requires Starts(u.events) == before + later && Strict(before + later) && |later| > 0
    requires cut == before || cut == before + [later[0]]
    requires all.fate == rest.fate && Starts(all.events) == cut + Starts(rest.events)
    requires Starts(rest.events) != [] ==> Starts(rest.events)[0] == later[0]
    requires rest.fate.Ended? && rest.fate.ending.StepLimit? && Told(Collapse(Starts(rest.events))) <= Told(later)
    ensures EquivalentOrShort(x, u, all)
  {
    hide Execution.Valid, Collapse, Told, Strict;
    var again := Starts(rest.events);
    StrictParts(before, later, cut);
    ToldConcat(before, later);
    if |again| > 0 {
      JoinCollapse(before, later[0], cut, again);
      ToldConcat(before, Collapse(again));
    } else {
      assert cut + again == cut;
      StrictCollapse(cut);
      ToldPrefix(cut, before + later);
    }
  }

  /** Over any cuts and with any budget: a run killed and resumed is equivalent to the unbroken run, or ends at the step
      limit with deliveries that are the head of the unbroken run's. It never delivers anything else. */
  lemma {:induction false} CrashNeverDiverges(x: Execution, ck: Checkpoint, cuts: seq<nat>)
    requires Storable(x, ck)
    ensures EquivalentOrShort(x, x.Run(x.Resume(ck)), Passes(x, ck, cuts))
    decreases |cuts|
  {
    hide Execution.Run, Execution.Boundary, Live, OpsOk, First, Execution.Valid, Disk, Equivalent, AllStartsFrom, Same,
      SameOrShort;
    var s := x.Resume(ck);
    RunStarts(x, s);
    if |cuts| == 0 {
      UncutRun(x, x.Run(s));
    } else {
      var p, disk, c := FirstPass(x, ck, cuts);
      var (rest, all) := (Recover(x, disk, cuts[1..]), Passes(x, ck, cuts));
      match c
      case Untouched =>
        assert Starts(p) + Starts(rest.events) == Starts(rest.events);
        if x.Valid(ck) {
          CrashNeverDiverges(x, ck, cuts[1..]);
          SameShort(x, x.Run(s), rest, all);
        } else {
          NothingDone(x, x.Run(s), ck, all);
        }
      case Emptied =>
        assert Starts(p) + Starts(rest.events) == Starts(p);
        EmptiedRun(x, x.Run(s), disk, all);
      case Reenters(w, before) =>
        BoundaryResumes(x, w, disk);
        RunSameOrShort(x, w, x.Resume(disk));
        if x.Valid(disk) {
          CrashNeverDiverges(x, disk, cuts[1..]);
          AgainFirst(x, disk, cuts[1..]);
          ShortOfSame(x, x.Run(w), x.Run(x.Resume(disk)), rest);
        }
        WillStart(x, w);
        ReenteredEither(x, x.Run(s), before, x.Run(w), Starts(p), rest, all);
    }
  }

  lemma SameShort(x: Execution, u: Outcome, a: Trace, b: Trace)
    requires EquivalentOrShort(x, u, a) && a.fate == b.fate && Starts(a.events) == Starts(b.events)
    ensures EquivalentOrShort(x, u, b)
  {
  }

  lemma ReenteredEither(x: Execution, u: Outcome, before: seq<Start>, n: Outcome, cut: seq<Start>, rest: Trace, all: Trace)
    requires var later := Starts(n.events);
             && Starts(u.events) == before + later && Strict(before + later) && |later| > 0
             && (cut == before || cut == before + [later[0]])
             && (Starts(rest.events) != [] ==> Starts(rest.events)[0] == later[0])
    requires all.fate == rest.fate && Starts(all.events) == cut + Starts(rest.events)
    requires n.ending == u.ending && n.outputs == u.outputs
    requires EquivalentOrShort(x, n, rest) || (rest.events == [] && rest.fate.Rejected? && !x.Valid(rest.fate.ck))
    ensures EquivalentOrShort(x, u, all)
  {
    hide Equivalent, Told, Collapse, Starts, Strict, Execution.Valid;
    var later := Starts(n.events);
    if Equivalent(x, n, rest) || (rest.events == [] && rest.fate.Rejected? && !x.Valid(rest.fate.ck)) {
      ReenteredTrace(x, u, before, later, cut, n, rest, all);
    } else {
      ReenteredShort(x, u, before, later, cut, rest, all);
    }
  }

  /** In particular a run started afresh, from the first checkpoint on: it never delivers anything else, no two
      deliveries share an ID, no more nodes are started than the budget has steps; and if the budget also pays one
      step for every crash, the crashes make no difference. */
  lemma FreshRunSurvives(x: Execution, start: string, seed: Output, cuts: seq<nat>)
    ensures var (u, t) := (x.Run(Loop([QItem(start, seed, None)], 0, map[], map[], None)),
                           Passes(x, Checkpoint([QItem(start, seed, None)], map[], map[], 0, Queued), cuts));
            && EquivalentOrShort(x, u, t)
            && (!u.ending.StepLimit? && u.steps + |cuts| <= x.maxSteps ==> Equivalent(x, u, t))
            && Ordered(Starts(t.events)) && |Starts(t.events)| <= x.maxSteps && Backed(t.events)
  {
    hide Execution.Run, Passes, Equivalent, EquivalentOrShort, Backed, Starts;
    var first := Checkpoint([QItem(start, seed, None)], map[], map[], 0, Queued);
    var u := x.Run(x.Resume(first));
    assert x.Resume(first) == Loop([QItem(start, seed, None)], 0, map[], map[], None);
    CrashNeverDiverges(x, first, cuts);
    if !u.ending.StepLimit? && u.steps + |cuts| <= x.maxSteps {
      CrashEquivalence(x, first, cuts);
    }
    OneIdPerDelivery(x, first, cuts);
    NoStartBeforeItsCheckpoint(x, first, cuts);
  }

  lemma UncutRun(x: Execution, u: Outcome)
    requires Strict(Starts(u.events))
    ensures Equivalent(x, u, Trace(u.events, Ended(u.ending, u.outputs)))
  {
    StrictCollapse(Starts(u.events));
  }

  lemma AgainFirst(x: Execution, ck: Checkpoint, cuts: seq<nat>)
    requires Storable(x, ck) && Live(x, x.Resume(ck))
    ensures var starts := Starts(Passes(x, ck, cuts).events); |starts| > 0 ==> starts[0] == First(x, x.Resume(ck))
  {
    hide Passes;
    OneIdPerDelivery(x, ck, cuts);
  }

  lemma SameTrace(x: Execution, u: Outcome, a: Trace, b: Trace)
    requires Equivalent(x, u, a) && a.fate == b.fate && Starts(a.events) == Starts(b.events)
    ensures Equivalent(x, u, b)
  {
  }

  lemma NothingDone(x: Execution, u: Outcome, ck: Checkpoint, t: Trace)
    requires Starts(t.events) == [] && t.fate == Rejected(ck) && !x.Valid(ck)
    ensures Equivalent(x, u, t)
  {
  }

  lemma EmptiedRun(x: Execution, u: Outcome, disk: Checkpoint, t: Trace)
    requires Strict(Starts(u.events)) && Starts(t.events) == Starts(u.events)
    requires u.ending.Succeeded? && disk.outputs == u.outputs && disk.pending == []
    requires t.fate == Rejected(disk) || t.fate == FoundDone(disk.outputs)
    ensures Equivalent(x, u, t)
  {
    hide Execution.Valid, Collapse;
    StrictCollapse(Starts(u.events));
  }

  // ---- the checkpoint comes first ----

  /** Every start directly follows the checkpoint that has it, with its operation ID, at the head of
      the pending work. */
  ghost predicate Backed(events: seq<Event>) {
    forall i :: 0 <= i < |events| && events[i].Started? ==>
      && i > 0 && events[i - 1].Stored? && |events[i - 1].ck.pending| > 0
      && events[i - 1].ck.pending[0] == QItem(events[i].node, events[i].input, Some(events[i].op))
  }

  lemma BackedParts(a: seq<Event>, b: seq<Event>)
    requires Backed(a) && Backed(b)
    ensures Backed(a + b)
  {
  }

  lemma {:induction false} RunIsBacked(x: Execution, s: Loop)
    requires OpsOk(s)
    ensures Backed(x.Run(s).events)
    decreases x.maxSteps + 1 - s.steps
  {
    hide Execution.Iterate, Execution.OpFor, OpsOk, Live;
    if |s.queue| > 0 {
      if Live(x, s) {
        StartIsBacked(x, s);
      }
      var t := x.Iterate(s);
      if t.Next? {
        TurnIsBacked(x, s);
        NextOpsOk(x, s);
        RunIsBacked(x, t.loop);
        BackedParts(t.events, x.Run(t.loop).events);
      } else {
        StopShape(x, s);
      }
    }
  }

  lemma StartIsBacked(x: Execution, s: Loop)
    requires Live(x, s)
    ensures Backed(x.StartEvents(s))
  {
  }

  lemma TurnIsBacked(x: Execution, s: Loop)
    requires |s.queue| > 0 && OpsOk(s) && x.Iterate(s).Next?
    ensures Backed(x.Iterate(s).events)
  {
    hide Execution.Iterate, Execution.OpFor, Execution.StartEvents;
    TurnShape(x, s);
    if Live(x, s) {
      StartIsBacked(x, s);
      BackedParts(x.StartEvents(s), x.Iterate(s).events[|x.StartEvents(s)|..]);
      assert x.Iterate(s).events == x.StartEvents(s) + x.Iterate(s).events[|x.StartEvents(s)|..];
    }
  }

  /** Over any number of crashes no node starts before its own checkpoint is stored. */
  lemma {:induction false} NoStartBeforeItsCheckpoint(x: Execution, ck: Checkpoint, cuts: seq<nat>)
    requires Storable(x, ck)
    ensures Backed(Passes(x, ck, cuts).events)
    decreases |cuts|
  {
    hide Execution.Run, Live, Disk, OpsOk, Execution.Boundary;
    RunIsBacked(x, x.Resume(ck));
    if |cuts| > 0 {
      hide Backed;
      var p, disk, c := FirstPass(x, ck, cuts);
      var rest := Recover(x, disk, cuts[1..]);
      BackedPrefix(x.Run(x.Resume(ck)).events, p);
      BackedNothing();
      if c.Reenters? {
        BoundaryResumes(x, c.turn, disk);
      }
      if rest.events != [] {
        NoStartBeforeItsCheckpoint(x, disk, cuts[1..]);
      }
      BackedParts(p, rest.events);
    }
  }

  lemma BackedPrefix(a: seq<Event>, p: seq<Event>)
    requires Backed(a) && p <= a
    ensures Backed(p)
  {
  }

  lemma BackedNothing()
    ensures Backed([])
  {
  }

  // ---- the window in which finished work is refused ----

  /** Recovery refuses a checkpoint that passes its checks exactly when the crash fell between the
      checkpoint of the emptied queue and the success checkpoint right after it. */
  lemma RefusedWindow(x: Execution, ck: Checkpoint, k: nat)
    requires Storable(x, ck) && k <= |x.Run(x.Resume(ck)).events|
    ensures var (e, fate) := (x.Run(x.Resume(ck)).events, Passes(x, ck, [k]).fate);
            fate.Rejected? && x.Valid(fate.ck) <==>
              0 < k == |e| - 1 && e[k - 1].Stored? && e[k - 1].ck.pending == [] && e[k - 1].ck.mark.Running?
              && x.Valid(e[k - 1].ck)
  {
    hide Execution.Run, Live, OpsOk, Execution.Valid, Starts;
    var e := x.Run(x.Resume(ck)).events;
    var c := CutAt(x, x.Resume(ck), k, ck);
    var p := e[..k];
    OneCut(x, ck, k);
    if k > 0 {
      assert p[|p| - 1] == e[k - 1];
    }
    if c.Reenters? {
      BoundaryResumes(x, c.turn, Disk(p, ck));
    }
  }

  lemma OneCut(x: Execution, ck: Checkpoint, k: nat)
    requires k <= |x.Run(x.Resume(ck)).events|
    ensures var (disk, fate) := (Disk(x.Run(x.Resume(ck)).events[..k], ck), Passes(x, ck, [k]).fate);
            && (fate.Rejected? ==> fate.ck == disk)
            && (fate.Rejected? && x.Valid(disk) <==> x.Valid(disk) && !disk.mark.Success? && disk.pending == [])
  {
    hide Execution.Run, Execution.Valid, Disk;
    assert [k][1..] == [];
    var disk := Disk(x.Run(x.Resume(ck)).events[..k], ck);
    assert Passes(x, ck, [k]).fate == Recover(x, disk, [k][1..]).fate;
  }

  /** The window is there in every workflow whose start node ends it: the run succeeds, yet killed
      before its last event it is reported as failed. */
  lemma FinishedWorkRefused(x: Execution, start: string, seed: Output, out: Output)
    requires start != "" && x.Runs(start) && x.wf.nodes[start].registered && !x.wf.nodes[start].wait && x.maxSteps > 0
    requires x.Try(start, seed, map[], 1) == Done(out) && Route(x.wf.From(start), out) == []
    ensures var first := Checkpoint([QItem(start, seed, None)], map[], map[], 0, Queued);
            && Storable(x, first) && x.Run(x.Resume(first)).ending.Succeeded?
            && Passes(x, first, [3]).fate.Rejected? && x.Valid(Passes(x, first, [3]).fate.ck)
  {
    var first := Checkpoint([QItem(start, seed, None)], map[], map[], 0, Queued);
    var s := x.Resume(first);
    var t := x.Iterate(s);
    assert s.queue[1..] + Route(x.wf.From(start), out) == [];
    assert t.Next? && |t.loop.queue| == 0;
    RefusedWindow(x, first, 3);
  }
}
