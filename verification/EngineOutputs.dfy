/** What the engine's turns do to the node outputs and to the queue, and what a whole run leaves. */
module EngineOutputs {
  import opened Ordering
  import opened CheckpointEngine
  import opened CrashRecovery

  // ---- one turn ----

  /** The reply has an item on its first branch. */
  predicate Gives(r: Reply) { r.Done? && |r.out| > 0 && |r.out[0]| > 0 }

  /** The reply to the item at the head of the queue. */
  function ReplyTo(x: Execution, s: Loop): Reply
    requires Live(x, s)
  {
    x.Try(s.queue[0].node, s.queue[0].input, s.outputs, 1)
  }

  /** That is the answer of the first try that succeeds or fails for good, or of the last of the node's tries, one at
      least; each try sees the node's input and the outputs so far. */
  lemma ReplyIsDecided(x: Execution, s: Loop) returns (b: nat)
    requires Live(x, s)
    ensures var item := s.queue[0];
            var tries := x.wf.nodes[item.node].tries;
            var limit := if tries > 1 then tries else 1;
            && 1 <= b <= limit && ReplyTo(x, s) == x.execute(item.node, item.input, s.outputs, b)
            && (ReplyTo(x, s).Done? || ReplyTo(x, s).permanent || b == limit)
            && forall c :: 1 <= c < b ==>
                 var r := x.execute(item.node, item.input, s.outputs, c);
                 r.Fails? && !r.permanent
  {
    hide Execution.Try;
    b := x.TryAnswers(s.queue[0].node, s.queue[0].input, s.outputs, 1);
    forall c | 1 <= c < b
      ensures var r := x.execute(s.queue[0].node, s.queue[0].input, s.outputs, c); r.Fails? && !r.permanent
    {
      assert x.Transient(s.queue[0].node, s.queue[0].input, s.outputs, c);
    }
  }

  /** Only the output of `name` may differ, and it is `value`. */
  ghost predicate Sets(before: map<string, Json>, after: map<string, Json>, name: string, value: Json) {
    && name in after && after[name] == value
    && forall k :: k != name ==> (k in after <==> k in before) && (k in after ==> after[k] == before[k])
  }

  /** Only this node's starts are counted up, by one. */
  ghost predicate CountsUp(before: map<string, nat>, after: map<string, nat>, name: string) {
    && name in after && after[name] == (if name in before then before[name] else 0) + 1
    && forall k :: k != name ==> (k in after <==> k in before) && (k in after ==> after[k] == before[k])
  }

  /** A successful reply: the first item of the first branch becomes the node's output, if there is one; the other
      outputs stay; and every connection whose branch has items carries them to the end of the queue. */
  lemma DoneTurn(x: Execution, s: Loop)
    requires Live(x, s) && s.steps < x.maxSteps && ReplyTo(x, s).Done?
    ensures var (name, out, t) := (s.queue[0].node, ReplyTo(x, s).out, x.Iterate(s));
            && t.Next? && t.loop.steps == s.steps + 1 && t.loop.resumeOp == None
            && CountsUp(s.attempts, t.loop.attempts, name)
            && (if |out| > 0 && |out[0]| > 0 then Sets(s.outputs, t.loop.outputs, name, out[0][0])
                else t.loop.outputs == s.outputs)
            && t.loop.queue == s.queue[1..] +
                 Map((c: Conn) => QItem(c.target, [if c.source < |out| then out[c.source] else []], None),
                     Filter((c: Conn) => c.source < |out| && |out[c.source]| > 0, x.wf.From(name)))
  {
    hide Execution.Try, Route, RouteBranch, Execution.StartEvents, Workflow.From;
    RouteIsFilter(x.wf.From(s.queue[0].node), ReplyTo(x, s).out);
  }

  /** A failure: with continue-on-fail an error item leaves on branch 1 or 0 and all outputs stay, otherwise the run ends
      with it. */
  lemma FailedTurn(x: Execution, s: Loop)
    requires Live(x, s) && s.steps < x.maxSteps && ReplyTo(x, s).Fails?
    ensures var (name, message, t) := (s.queue[0].node, ReplyTo(x, s).message, x.Iterate(s));
            var node := x.wf.nodes[name];
            if node.continueOnFail then
              && t.Next? && t.loop.steps == s.steps + 1 && t.loop.resumeOp == None && t.loop.outputs == s.outputs
              && CountsUp(s.attempts, t.loop.attempts, name)
              && t.loop.queue == s.queue[1..] +
                   Map((c: Conn) => QItem(c.target, [[ErrorItem(message)]], None),
                       Filter((c: Conn) => c.source == (if node.errorOutput then 1 else 0), x.wf.From(name)))
            else t == Stop(x.StartEvents(s), NodeFailed(name, message))
  {
    hide Execution.Try, Route, RouteBranch, Execution.StartEvents, Workflow.From, ErrorItem;
    var (name, message) := (s.queue[0].node, ReplyTo(x, s).message);
    RouteBranchIsFilter(x.wf.From(name), if x.wf.nodes[name].errorOutput then 1 else 0, [ErrorItem(message)]);
  }

  /** A node that is not there, is disabled or is a note is passed over: nothing is stored or started, no output and no
      count changes, nothing is added to the queue. */
  lemma SkippedTurn(x: Execution, s: Loop)
    requires |s.queue| > 0 && s.steps < x.maxSteps
    requires s.queue[0].node !in x.wf.nodes || x.wf.nodes[s.queue[0].node].inert
    ensures x.Iterate(s) == Next([], Loop(s.queue[1..], s.steps + 1, s.attempts, s.outputs, s.resumeOp))
  {
  }

  /** A type without an executor, and the budget, end the run before anything is started. */
  lemma RefusedTurn(x: Execution, s: Loop)
    requires |s.queue| > 0
    ensures s.steps >= x.maxSteps ==> x.Iterate(s) == Stop([], StepLimit)
    ensures var name := s.queue[0].node;
            s.steps < x.maxSteps && name in x.wf.nodes && !x.wf.nodes[name].inert && !x.wf.nodes[name].registered ==>
              x.Iterate(s) == Stop([], NoExecutor(name))
  {
  }

  /** What a started turn shows: the checkpoint with the node at its head under its operation ID, counted and one step
      on; the start under that ID; for a waiting node the same checkpoint marked so; and for an emptied queue a last
      one. The ID is the resumed one, or made of the execution, the step and the node. */
  lemma TurnEvents(x: Execution, s: Loop)
    requires OpsOk(s) && Live(x, s) && s.steps < x.maxSteps
    ensures var (head, e) := (s.queue[0], x.Iterate(s).events);
            && |e| >= 2 && e[0].Stored? && e[1].Started?
            && e[1].node == head.node && e[1].input == head.input
            && e[1].op == (if s.resumeOp.Some? && head.op.Some? then head.op.value else OpId(x.id, s.steps + 1, head.node))
            && (var ck := e[0].ck;
                && ck.pending == [QItem(head.node, head.input, Some(e[1].op))] + s.queue[1..]
                && ck.outputs == s.outputs && CountsUp(s.attempts, ck.attempts, head.node)
                && ck.steps == s.steps + 1 && ck.mark == Running
                && (x.wf.nodes[head.node].wait ==> |e| >= 3 && e[2] == Stored(ck.(mark := Waiting)))
                && var n := if x.wf.nodes[head.node].wait then 3 else 2;
                   match x.Iterate(s)
                   case Stop(_, _) => |e| == n
                   case Next(_, next) =>
                     if |next.queue| > 0 then |e| == n
                     else |e| == n + 1 && e[n] == Stored(Checkpoint([], next.outputs, next.attempts, next.steps, Running)))
  {
    hide Execution.Try, Execution.Iterate, Route, RouteBranch;
    if x.Iterate(s).Next? {
      TurnShape(x, s);
    } else {
      StopShape(x, s);
    }
  }

  /** What recovery does with a checkpoint before it starts anything: refuses it if it is too large, too far on, names a
      node that is not there, or has no work left without being marked a success; finds it done if it is so marked. */
  lemma RecoveryDecides(x: Execution, ck: Checkpoint)
    ensures var fits := |ck.pending| <= 4096 && |ck.attempts| <= 2048 && |ck.outputs| <= 2048 && ck.steps <= 1000000
                        && forall i :: 0 <= i < |ck.pending| ==> ck.pending[i].node != "" && ck.pending[i].node in x.wf.nodes;
            var t := Recover(x, ck, []);
            && (t.fate.Rejected? <==> !fits || (ck.mark != Success && |ck.pending| == 0))
            && (t.fate.FoundDone? <==> fits && ck.mark == Success)
            && (!t.fate.Ended? ==> t.events == [])
  {
    hide Execution.Run, Execution.Resume;
  }

  // ---- a whole run ----

  datatype Answered = Answered(node: string, reply: Reply)

  /** The nodes that a run starts, each with the reply it gets, in order. */
  function Answers(x: Execution, s: Loop): seq<Answered>
    decreases x.maxSteps + 1 - s.steps
  {
    if |s.queue| == 0 then []
    else
      var own := if Live(x, s) && s.steps < x.maxSteps then [Answered(s.queue[0].node, ReplyTo(x, s))] else [];
      match x.Iterate(s)
      case Stop(_, _) => own
      case Next(_, next) => own + Answers(x, next)
  }

  /** Each start has one reply. */
  lemma {:induction false} AnswersAreStarts(x: Execution, s: Loop)
    requires OpsOk(s)
    ensures var (a, starts) := (Answers(x, s), Starts(x.Run(s).events));
            |a| == |starts| && forall i :: 0 <= i < |a| ==> a[i].node == starts[i].node
    decreases x.maxSteps + 1 - s.steps
  {
    hide Execution.StartEvents, Execution.Iterate, Execution.Try, Live, OpsOk;
    if |s.queue| == 0 {
      NothingStarted(x, s);
    } else if x.Iterate(s).Next? {
      NextOpsOk(x, s);
      TurnStarts(x, s);
      AnswersAreStarts(x, x.Iterate(s).loop);
    } else if s.steps < x.maxSteps {
      StopTold(x, s);
    } else {
      LimitStops(x, s);
    }
  }

  /** Only nodes that are there, enabled, no notes, and have an executor are ever started. */
  lemma {:induction false} OnlyRunnableStart(x: Execution, s: Loop)
    ensures forall a :: a in Answers(x, s) ==>
              a.node in x.wf.nodes && !x.wf.nodes[a.node].inert && x.wf.nodes[a.node].registered
    decreases x.maxSteps + 1 - s.steps
  {
    hide Execution.Try;
    if |s.queue| > 0 && x.Iterate(s).Next? {
      OnlyRunnableStart(x, x.Iterate(s).loop);
    }
  }

  /** The node's output after the replies: the first item of its last reply that had one, else what it was. */
  function LastGiven(answers: seq<Answered>, name: string, before: Option<Json>): Option<Json> {
    if |answers| == 0 then before
    else
      var a := answers[|answers| - 1];
      if GivesTo(a, name) then Some(a.reply.out[0][0])
      else LastGiven(answers[..|answers| - 1], name, before)
  }

  function OutputOf(outputs: map<string, Json>, name: string): Option<Json> {
    if name in outputs then Some(outputs[name]) else None
  }

  predicate GivesTo(a: Answered, name: string) { a.node == name && Gives(a.reply) }

  /** The `k`-th reply is the node's last one with an item. */
  ghost predicate LastGiver(answers: seq<Answered>, name: string, k: nat) {
    && k < |answers| && GivesTo(answers[k], name)
    && forall j :: k < j < |answers| ==> !GivesTo(answers[j], name)
  }

  /** By position: what the last giving reply gives, or what was there. */
  lemma {:induction false} LastGivenIsLast(answers: seq<Answered>, name: string, before: Option<Json>)
    ensures forall k: nat :: LastGiver(answers, name, k) ==>
              LastGiven(answers, name, before) == Some(answers[k].reply.out[0][0])
    ensures (forall a :: a in answers ==> !GivesTo(a, name)) ==> LastGiven(answers, name, before) == before
  {
    if |answers| > 0 {
      var (front, last) := (answers[..|answers| - 1], answers[|answers| - 1]);
      LastGivenIsLast(front, name, before);
      forall k: nat | LastGiver(answers, name, k) ensures LastGiven(answers, name, before) == Some(answers[k].reply.out[0][0]) {
        if k < |front| {
          assert front[k] == answers[k] && !GivesTo(answers[|front|], name);
          assert LastGiver(front, name, k);
        }
      }
      assert last in answers;
    }
  }

  lemma {:induction false} GivenLater(a: seq<Answered>, b: seq<Answered>, name: string, before: Option<Json>)
    ensures LastGiven(a + b, name, before) == LastGiven(b, name, LastGiven(a, name, before))
  {
    if |b| == 0 {
      assert a + b == a;
    } else {
      assert (a + b)[..|a + b| - 1] == a + b[..|b| - 1];
      GivenLater(a, b[..|b| - 1], name, before);
    }
  }

  lemma TurnOutputs(x: Execution, s: Loop, name: string)
    requires |s.queue| > 0 && x.Iterate(s).Next?
    ensures var own := if Live(x, s) && s.steps < x.maxSteps then [Answered(s.queue[0].node, ReplyTo(x, s))] else [];
            OutputOf(x.Iterate(s).loop.outputs, name) == LastGiven(own, name, OutputOf(s.outputs, name))
  {
    hide Execution.Iterate, Execution.Try;
    RefusedTurn(x, s);
    if !Live(x, s) {
      SkippedTurn(x, s);
    } else if ReplyTo(x, s).Done? {
      DoneTurn(x, s);
      OneGiven(Answered(s.queue[0].node, ReplyTo(x, s)), name, OutputOf(s.outputs, name));
    } else {
      FailedTurn(x, s);
      OneGiven(Answered(s.queue[0].node, ReplyTo(x, s)), name, OutputOf(s.outputs, name));
    }
  }

  lemma OneGiven(a: Answered, name: string, before: Option<Json>)
    ensures LastGiven([a], name, before) == if GivesTo(a, name) then Some(a.reply.out[0][0]) else before
  {
    assert [a][..0] == [];
  }

  /** The same by position: the output a run leaves for a node is the first item of the node's last reply that had one,
      and the one the run began with if none had. */
  lemma FinalOutputIsLast(x: Execution, s: Loop, name: string)
    ensures var (answers, outputs) := (Answers(x, s), x.Run(s).outputs);
            && (forall k: nat :: LastGiver(answers, name, k) ==> name in outputs && outputs[name] == answers[k].reply.out[0][0])
            && ((forall a :: a in answers ==> !GivesTo(a, name)) ==> OutputOf(outputs, name) == OutputOf(s.outputs, name))
  {
    hide Execution.Run, Answers, LastGiven;
    FinalOutputs(x, s, name);
    LastGivenIsLast(Answers(x, s), name, OutputOf(s.outputs, name));
  }

  lemma {:induction false} FinalOutputs(x: Execution, s: Loop, name: string)
    ensures OutputOf(x.Run(s).outputs, name) == LastGiven(Answers(x, s), name, OutputOf(s.outputs, name))
    decreases x.maxSteps + 1 - s.steps
  {
    hide Execution.Try, Execution.Iterate, LastGiven, Execution.StartEvents;
    if |s.queue| == 0 {
      NothingGiven(name, OutputOf(s.outputs, name));
    } else {
      var own := if Live(x, s) && s.steps < x.maxSteps then [Answered(s.queue[0].node, ReplyTo(x, s))] else [];
      if x.Iterate(s).Next? {
        var next := x.Iterate(s).loop;
        TurnOutputs(x, s, name);
        NextIsLater(x, s);
        FinalOutputs(x, next, name);
        GivenLater(own, Answers(x, next), name, OutputOf(s.outputs, name));
      } else {
        StoppedGives(x, s, name);
      }
    }
  }

  lemma NextIsLater(x: Execution, s: Loop)
    requires |s.queue| > 0 && x.Iterate(s).Next?
    ensures x.Iterate(s).loop.steps == s.steps + 1 <= x.maxSteps
  {
    hide Execution.Try;
  }

  lemma NothingGiven(name: string, before: Option<Json>)
    ensures LastGiven([], name, before) == before
  {
  }

  /** The reply that ends a run gives nothing. */
  lemma StoppedGives(x: Execution, s: Loop, name: string)
    requires |s.queue| > 0 && x.Iterate(s).Stop?
    ensures LastGiven(Answers(x, s), name, OutputOf(s.outputs, name)) == OutputOf(s.outputs, name)
    ensures x.Run(s).outputs == s.outputs
  {
    hide Execution.Iterate, Execution.Try;
    if Live(x, s) && s.steps < x.maxSteps {
      if ReplyTo(x, s).Done? {
        DoneTurn(x, s);
      }
      OneGiven(Answered(s.queue[0].node, ReplyTo(x, s)), name, OutputOf(s.outputs, name));
    }
  }
}
