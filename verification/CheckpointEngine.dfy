/** The execution engine: a first-in first-out dataflow interpreter over a possibly cyclic graph
    that stores a checkpoint before every node it starts. */
module CheckpointEngine {
  import opened Ordering

  /** The JSON of one item. */
  type Json = string

  /** Branches of items, as produced by a node or delivered to one. */
  type Output = seq<seq<Json>>

  datatype Node = Node(
    inert: bool,            // disabled, or a sticky note
    registered: bool,       // an executor for its type exists
    wait: bool,             // stores its deadline before it sleeps
    tries: nat,             // attempts before a transient failure counts
    continueOnFail: bool,
    errorOutput: bool)      // failures leave on branch 1 instead of branch 0

  datatype Conn = Conn(source: nat, target: string)

  datatype Workflow = Workflow(nodes: map<string, Node>, conns: map<string, seq<Conn>>) {
    function From(name: string): seq<Conn> { if name in conns then conns[name] else [] }
  }

  datatype Reply = Done(out: Output) | Fails(permanent: bool, message: string)

  /** The identity of a node start. The hash that renders it is taken as injective. */
  datatype OpId = OpId(execution: string, step: nat, node: string)

  datatype QItem = QItem(node: string, input: Output, op: Option<OpId>)

  datatype Mark = Queued | Running | Waiting | Success

  datatype Checkpoint = Checkpoint(
    pending: seq<QItem>, outputs: map<string, Json>, attempts: map<string, nat>, steps: nat, mark: Mark)

  datatype Ending =
    | Succeeded
    | StepLimit
    | NoExecutor(node: string)
    | NodeFailed(node: string, message: string)

  /** What the outside world can see of a run. */
  datatype Event =
    | Stored(ck: Checkpoint)
    | Started(node: string, input: Output, op: OpId)

  /** The loop's variables. */
  datatype Loop = Loop(queue: seq<QItem>, steps: nat, attempts: map<string, nat>,
                       outputs: map<string, Json>, resumeOp: Option<OpId>)

  datatype Turn =
    | Next(events: seq<Event>, loop: Loop)
    | Stop(events: seq<Event>, ending: Ending)

  datatype Outcome = Outcome(events: seq<Event>, ending: Ending, outputs: map<string, Json>, steps: nat)

  function ErrorItem(message: string): Json { "error:" + message }

  /** One queue item per connection whose branch has items. */
  function Route(conns: seq<Conn>, out: Output): seq<QItem> {
    if |conns| == 0 then []
    else
      var c := conns[|conns| - 1];
      Route(conns[..|conns| - 1], out)
      + (if c.source < |out| && |out[c.source]| > 0 then [QItem(c.target, [out[c.source]], None)] else [])
  }

  /** One queue item per connection that leaves on `branch`. */
  function RouteBranch(conns: seq<Conn>, branch: nat, items: seq<Json>): seq<QItem> {
    if |conns| == 0 then []
    else
      var c := conns[|conns| - 1];
      RouteBranch(conns[..|conns| - 1], branch, items)
      + (if c.source == branch then [QItem(c.target, [items], None)] else [])
  }

  /** Routing is a filter: every connection whose branch has items, and no other, carries that branch to
      its target, in connection order. */
  lemma {:induction false} RouteIsFilter(conns: seq<Conn>, out: Output)
    ensures var carries := (c: Conn) => c.source < |out| && |out[c.source]| > 0;
            Route(conns, out)
            == Map((c: Conn) => QItem(c.target, [if c.source < |out| then out[c.source] else []], None), Filter(carries, conns))
  {
    if |conns| > 0 {
      RouteIsFilter(conns[..|conns| - 1], out);
    }
  }

  /** So is the routing of an error item, to the connections that leave on its branch. */
  lemma {:induction false} RouteBranchIsFilter(conns: seq<Conn>, branch: nat, items: seq<Json>)
    ensures RouteBranch(conns, branch, items)
            == Map((c: Conn) => QItem(c.target, [items], None), Filter((c: Conn) => c.source == branch, conns))
  {
    if |conns| > 0 {
      RouteBranchIsFilter(conns[..|conns| - 1], branch, items);
    }
  }

  /** The first item of the first branch becomes the node's visible output. */
  function Recorded(outputs: map<string, Json>, name: string, out: Output): map<string, Json> {
    if |out| == 0 || |out[0]| == 0 then outputs else outputs[name := out[0][0]]
  }

  function Bumped(attempts: map<string, nat>, name: string): map<string, nat> {
    attempts[name := (if name in attempts then attempts[name] else 0) + 1]
  }

  /** One execution: its workflow, its executors and its step budget. An executor answers from
      the node, its input, the outputs so far and the number of the try. */
  datatype Execution = Execution(
    id: string, wf: Workflow, execute: (string, Output, map<string, Json>, nat) -> Reply, maxSteps: nat)
  {
    function Tries(name: string): nat
      requires name in wf.nodes
    {
      if wf.nodes[name].tries <= 1 then 1 else wf.nodes[name].tries
    }

    /** Retries a transient failure until the node's tries are used up. */
    function Try(name: string, input: Output, outputs: map<string, Json>, a: nat): Reply
      requires name in wf.nodes
      decreases Tries(name) - a
    {
      var r := execute(name, input, outputs, a);
      if r.Done? || r.permanent || a >= Tries(name) then r else Try(name, input, outputs, a + 1)
    }

    predicate Transient(name: string, input: Output, outputs: map<string, Json>, c: nat) {
      var r := execute(name, input, outputs, c);
      r.Fails? && !r.permanent
    }

    /** It answers with the first try that succeeds or fails for good, or else with the last one; every try before
        it failed for the time being. */
    lemma {:induction false} TryAnswers(name: string, input: Output, outputs: map<string, Json>, a: nat) returns (b: nat)
      requires name in wf.nodes && a <= Tries(name)
      ensures a <= b <= Tries(name) && Try(name, input, outputs, a) == execute(name, input, outputs, b)
      ensures var r := execute(name, input, outputs, b); r.Done? || r.permanent || b == Tries(name)
      ensures forall c :: a <= c < b ==> Transient(name, input, outputs, c)
      decreases Tries(name) - a
    {
      var r := execute(name, input, outputs, a);
      b := a;
      if !r.Done? && !r.permanent && a < Tries(name) {
        b := TryAnswers(name, input, outputs, a + 1);
      }
    }

    predicate Runs(name: string) { name in wf.nodes && !wf.nodes[name].inert }

    function OpFor(s: Loop): OpId
      requires |s.queue| > 0
    {
      if s.resumeOp.Some? && s.queue[0].op.Some? then s.queue[0].op.value
      else OpId(id, s.steps + 1, s.queue[0].node)
    }

    /** The checkpoint stored before the head of the queue is started. */
    function Boundary(s: Loop): Checkpoint
      requires |s.queue| > 0
    {
      Checkpoint([s.queue[0].(op := Some(OpFor(s)))] + s.queue[1..], s.outputs,
                 Bumped(s.attempts, s.queue[0].node), s.steps + 1, Running)
    }

    /** What storing the boundary and starting the node looks like from outside. */
    function StartEvents(s: Loop): seq<Event>
      requires |s.queue| > 0 && s.queue[0].node in wf.nodes
    {
      [Stored(Boundary(s)), Started(s.queue[0].node, s.queue[0].input, OpFor(s))]
      + (if wf.nodes[s.queue[0].node].wait then [Stored(Boundary(s).(mark := Waiting))] else [])
    }

    /** The loop after the node's reply; an emptied queue is stored at once. */
    function Settled(s: Loop, more: seq<QItem>, outputs: map<string, Json>): Turn
      requires |s.queue| > 0 && s.queue[0].node in wf.nodes
    {
      var attempts := Bumped(s.attempts, s.queue[0].node);
      var rest := s.queue[1..] + more;
      Next(StartEvents(s)
           + (if |rest| == 0 then [Stored(Checkpoint([], outputs, attempts, s.steps + 1, Running))] else []),
           Loop(rest, s.steps + 1, attempts, outputs, None))
    }

    /** One iteration of the loop over a non-empty queue. */
    function Iterate(s: Loop): Turn
      requires |s.queue| > 0
    {
      var item := s.queue[0];
      if s.steps + 1 > maxSteps then Stop([], StepLimit)
      else if !Runs(item.node) then Next([], s.(queue := s.queue[1..], steps := s.steps + 1))
      else if !wf.nodes[item.node].registered then Stop([], NoExecutor(item.node))
      else
        var node := wf.nodes[item.node];
        match Try(item.node, item.input, s.outputs, 1)
        case Done(out) =>
          Settled(s, Route(wf.From(item.node), out), Recorded(s.outputs, item.node, out))
        case Fails(_, message) =>
          if node.continueOnFail then
            Settled(s, RouteBranch(wf.From(item.node), if node.errorOutput then 1 else 0, [ErrorItem(message)]),
                    s.outputs)
          else Stop(StartEvents(s), NodeFailed(item.node, message))
    }

    /** The whole loop. */
    function Run(s: Loop): Outcome
      decreases maxSteps + 1 - s.steps
    {
      if |s.queue| == 0 then
        Outcome([Stored(Checkpoint([], s.outputs, s.attempts, s.steps, Success))], Succeeded, s.outputs, s.steps)
      else
        match Iterate(s)
        case Stop(events, ending) =>
          Outcome(events, ending, s.outputs, if ending.StepLimit? then s.steps else s.steps + 1)
        case Next(events, next) =>
          var r := Run(next);
          r.(events := events + r.events)
    }

    /** What a delivered item's reply makes of the turn. */
    lemma ReplyDecides(s: Loop)
      requires |s.queue| > 0 && s.steps + 1 <= maxSteps && Runs(s.queue[0].node) && wf.nodes[s.queue[0].node].registered
      ensures var item := s.queue[0];
              var node := wf.nodes[item.node];
              Iterate(s) == match Try(item.node, item.input, s.outputs, 1)
                            case Done(out) =>
                              Settled(s, Route(wf.From(item.node), out), Recorded(s.outputs, item.node, out))
                            case Fails(_, message) =>
                              if node.continueOnFail then
                                Settled(s, RouteBranch(wf.From(item.node), if node.errorOutput then 1 else 0,
                                                       [ErrorItem(message)]), s.outputs)
                              else Stop(StartEvents(s), NodeFailed(item.node, message))
    {
      hide Settled, StartEvents, Try, Route, RouteBranch;
    }

    lemma SettledIs(s: Loop, more: seq<QItem>, outputs: map<string, Json>)
      requires |s.queue| > 0 && s.queue[0].node in wf.nodes
      ensures var (attempts, queue) := (Bumped(s.attempts, s.queue[0].node), s.queue[1..] + more);
              Settled(s, more, outputs)
              == Next(StartEvents(s)
                      + (if |queue| == 0 then [Stored(Checkpoint([], outputs, attempts, s.steps + 1, Running))] else []),
                      Loop(queue, s.steps + 1, attempts, outputs, None))
    {
    }

    /** The run from `s` is `done` followed by the run from `now`. */
    ghost predicate Follows(s: Loop, done: seq<Event>, now: Loop) {
      var (r, n) := (Run(s), Run(now));
      r.events == done + n.events && r.ending == n.ending && r.outputs == n.outputs
    }

    lemma Begins(s: Loop)
      ensures Follows(s, [], s)
    {
      assert [] + Run(s).events == Run(s).events;
    }

    lemma OneTurn(s: Loop, done: seq<Event>, now: Loop)
      requires Follows(s, done, now) && |now.queue| > 0
      ensures var t := Iterate(now);
              && (t.Next? ==> Follows(s, done + t.events, t.loop) && (t.events == [] ==> Follows(s, done, t.loop)))
              && (t.Stop? ==> Run(s).events == done + t.events && Run(s).ending == t.ending
                              && Run(s).outputs == now.outputs)
    {
      hide Execution.Iterate;
      var t := Iterate(now);
      if t.Next? {
        assert done + (t.events + Run(t.loop).events) == (done + t.events) + Run(t.loop).events;
      }
    }

    lemma EmptyTurn(s: Loop, done: seq<Event>, now: Loop)
      requires Follows(s, done, now) && |now.queue| == 0
      ensures Run(s).events == done + [Stored(Checkpoint([], now.outputs, now.attempts, now.steps, Success))]
      ensures Run(s).ending == Succeeded && Run(s).outputs == now.outputs
    {
    }

    function Resume(ck: Checkpoint): Loop {
      Loop(ck.pending, ck.steps, ck.attempts, ck.outputs,
           if |ck.pending| > 0 then ck.pending[0].op else None)
    }

    /** What recovery checks before anything else. */
    predicate Valid(ck: Checkpoint) {
      && |ck.pending| <= 4096 && |ck.attempts| <= 2048 && |ck.outputs| <= 2048 && ck.steps <= 1000000
      && forall item :: item in ck.pending ==> item.node != "" && item.node in wf.nodes
    }
  }

  // ---- the object ----

  class Engine {
    /** Everything stored and started, in order. */
    var journal: seq<Event>

    constructor ()
      ensures journal == []
    {
      journal := [];
    }

    method TryNode(x: Execution, name: string, input: Output, outputs: map<string, Json>)
      returns (r: Reply)
      requires name in x.wf.nodes
      ensures r == x.Try(name, input, outputs, 1)
      ensures exists b :: 1 <= b <= x.Tries(name) && r == x.execute(name, input, outputs, b)
                          && (r.Done? || r.permanent || b == x.Tries(name))
                          && forall c :: 1 <= c < b ==> x.Transient(name, input, outputs, c)
    {
      var a := 1;
      r := x.execute(name, input, outputs, a);
      while r.Fails? && !r.permanent && a < x.Tries(name)
        invariant 1 <= a <= x.Tries(name)
        invariant r == x.execute(name, input, outputs, a)
        invariant forall c :: 1 <= c < a ==> x.Transient(name, input, outputs, c)
        invariant x.Try(name, input, outputs, 1) == x.Try(name, input, outputs, a)
        decreases x.Tries(name) - a
      {
        a := a + 1;
        r := x.execute(name, input, outputs, a);
      }
    }

    method RouteItems(conns: seq<Conn>, out: Output) returns (items: seq<QItem>)
      ensures items == Route(conns, out)
    {
      items := [];
      for i := 0 to |conns|
        invariant items == Route(conns[..i], out)
      {
        assert conns[..i + 1][..i] == conns[..i];
        if conns[i].source >= |out| {
          continue;
        }
        if |out[conns[i].source]| == 0 {
          continue;
        }
        items := items + [QItem(conns[i].target, [out[conns[i].source]], None)];
      }
      assert conns[..|conns|] == conns;
    }

    method EnqueueFromBranch(conns: seq<Conn>, branch: nat, message: string) returns (items: seq<QItem>)
      ensures items == RouteBranch(conns, branch, [ErrorItem(message)])
    {
      items := [];
      for i := 0 to |conns|
        invariant items == RouteBranch(conns[..i], branch, [ErrorItem(message)])
      {
        assert conns[..i + 1][..i] == conns[..i];
        if conns[i].source != branch {
          continue;
        }
        items := items + [QItem(conns[i].target, [[ErrorItem(message)]], None)];
      }
      assert conns[..|conns|] == conns;
    }

    /** Stores the boundary and starts the node at the head of the queue. */
    method StartNode(x: Execution, ghost s: Loop, item: QItem, queue: seq<QItem>, steps: nat,
                     attempts: map<string, nat>, outputs: map<string, Json>, resumeOp: Option<OpId>)
      requires item.node in x.wf.nodes
      requires steps == s.steps + 1 && s == Loop([item] + queue, s.steps, s.attempts, outputs, resumeOp)
      requires attempts == Bumped(s.attempts, item.node)
      modifies this
      ensures journal == old(journal) + x.StartEvents(s)
    {
      var op := if resumeOp.Some? && item.op.Some? then item.op.value else OpId(x.id, steps, item.node);
      var boundary := Checkpoint([item.(op := Some(op))] + queue, outputs, attempts, steps, Running);
      assert boundary == x.Boundary(s);
      journal := journal + [Stored(boundary)];
      journal := journal + [Started(item.node, item.input, op)];
      if x.wf.nodes[item.node].wait {
        journal := journal + [Stored(boundary.(mark := Waiting))];
      }
    }

    /** Delivers one item to its node; `failed` is the message of a failure that ends the run. */
    method Deliver(x: Execution, ghost s: Loop, item: QItem, rest: seq<QItem>, steps: nat,
                   attempts: map<string, nat>, before: map<string, Json>, resumeOp: Option<OpId>)
      returns (queue: seq<QItem>, outputs: map<string, Json>, failed: Option<string>)
      requires x.Runs(item.node) && x.wf.nodes[item.node].registered && steps <= x.maxSteps
      requires steps == s.steps + 1 && s == Loop([item] + rest, s.steps, s.attempts, before, resumeOp)
      requires attempts == Bumped(s.attempts, item.node)
      modifies this
      ensures old(journal) + x.Iterate(s).events == journal
      ensures failed.Some? ==> outputs == before
                               && x.Iterate(s) == Stop(x.StartEvents(s), NodeFailed(item.node, failed.value))
      ensures failed.None? ==> x.Iterate(s).Next?
                               && x.Iterate(s).loop == Loop(queue, steps, attempts, outputs, None)
    {
      hide Execution.Try, Execution.Tries, Execution.OpFor, Execution.Boundary, Execution.StartEvents, Execution.Run,
        Execution.Iterate, Execution.Settled, Route, RouteBranch, Bumped;
      x.ReplyDecides(s);
      assert s.queue[0] == item && s.queue[1..] == rest;
      queue, outputs, failed := rest, before, None;
      StartNode(x, s, item, rest, steps, attempts, before, resumeOp);
      var node := x.wf.nodes[item.node];
      var reply := TryNode(x, item.node, item.input, before);
      if reply.Fails? {
        if !node.continueOnFail {
          failed := Some(reply.message);
          return;
        }
        var more := EnqueueFromBranch(x.wf.From(item.node), if node.errorOutput then 1 else 0, reply.message);
        x.SettledIs(s, more, outputs);
        queue := queue + more;
      } else {
        if |reply.out| > 0 && |reply.out[0]| > 0 {
          outputs := outputs[item.node := reply.out[0][0]];
        }
        var more := RouteItems(x.wf.From(item.node), reply.out);
        x.SettledIs(s, more, outputs);
        queue := queue + more;
      }
      if |queue| == 0 {
        journal := journal + [Stored(Checkpoint(queue, outputs, attempts, steps, Running))];
      }
    }

    /** The work-queue loop. */
    method Work(x: Execution, s: Loop) returns (ending: Ending, outputs: map<string, Json>)
      modifies this
      ensures var r := x.Run(s);
              ending == r.ending && outputs == r.outputs && journal == old(journal) + r.events
    {
      var queue, steps, attempts, resumeOp := s.queue, s.steps, s.attempts, s.resumeOp;
      hide Execution.Run, Execution.Settled, Execution.StartEvents, Execution.Try, Execution.Follows, Execution.Boundary,
        Execution.OpFor, Execution.Tries, Route, RouteBranch, Recorded, ErrorItem, Workflow.From, Execution.Resume;
      outputs := s.outputs;
      ghost var done: seq<Event> := [];
      x.Begins(s);
      while |queue| > 0
        invariant journal == old(journal) + done
        invariant x.Follows(s, done, Loop(queue, steps, attempts, outputs, resumeOp))
        decreases x.maxSteps + 1 - steps
      {
        ghost var now := Loop(queue, steps, attempts, outputs, resumeOp);
        x.OneTurn(s, done, now);
        if steps + 1 > x.maxSteps {
          return StepLimit, outputs;
        }
        steps := steps + 1;
        var item := queue[0];
        queue := queue[1..];
        if item.node !in x.wf.nodes || x.wf.nodes[item.node].inert {
          continue;
        }
        if !x.wf.nodes[item.node].registered {
          return NoExecutor(item.node), outputs;
        }
        attempts := Bumped(attempts, item.node);
        var failed;
        assert now.queue == [item] + queue;
        queue, outputs, failed := Deliver(x, now, item, queue, steps, attempts, outputs, resumeOp);
        resumeOp := None;
        done := done + x.Iterate(now).events;
        if failed.Some? {
          return NodeFailed(item.node, failed.value), outputs;
        }
      }
      x.EmptyTurn(s, done, Loop(queue, steps, attempts, outputs, resumeOp));
      journal := journal + [Stored(Checkpoint([], outputs, attempts, steps, Success))];
      return Succeeded, outputs;
    }

    /** The whole run, from a fresh start or from a checkpoint. */
    method RunWithCheckpoint(x: Execution, start: string, seed: Output, resume: Option<Checkpoint>)
      returns (ending: Ending, outputs: map<string, Json>)
      modifies this
      ensures var first := Checkpoint([QItem(start, seed, None)], map[], map[], 0, Queued);
              var r := x.Run(x.Resume(if resume.Some? then resume.value else first));
              && ending == r.ending && outputs == r.outputs
              && journal == old(journal) + (if resume.Some? then [] else [Stored(first)]) + r.events
    {
      var s := Loop([QItem(start, seed, None)], 0, map[], map[], None);
      if resume.Some? {
        var ck := resume.value;
        s := Loop(ck.pending, ck.steps, ck.attempts, ck.outputs,
                  if |ck.pending| > 0 then ck.pending[0].op else None);
      } else {
        journal := journal + [Stored(Checkpoint(s.queue, s.outputs, s.attempts, s.steps, Queued))];
      }
      ending, outputs := Work(x, s);
    }
  }
}
