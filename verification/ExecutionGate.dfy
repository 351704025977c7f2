/** The global execution gate: tickets, a first-in first-out queue of jobs, a wake channel of capacity
    one and a single worker. Every block the source runs under its lock is one step. */
module ExecutionGate {
  import opened Ordering

  /** The life of a ticket and of the job submitted with it. */
  datatype Phase = Held | Released | Waiting | Withdrawn | Taken | Finished

  datatype Ticket = Ticket(key: string, phase: Phase)

  datatype Worker = Scanning | Blocked | Busy(id: nat) | Cleaning

  datatype Gate = Gate(
    tickets: seq<Ticket>,     // every ticket ever given, by its number
    keys: set<string>,        // the busy keys
    jobs: seq<nat>,           // the queue, withdrawn jobs included
    wake: bool,               // a token is in the wake channel
    starting: set<nat>,       // appended, about to start the worker if nobody did
    signalling: set<nat>,     // appended, about to put the wake token
    once: bool,               // the worker was started
    workers: seq<Worker>,
    submitted: seq<nat>,      // history: every job ever appended
    taken: seq<nat>)          // history: every job ever handed to a worker

  const INITIAL := Gate([], {}, [], false, {}, {}, false, [], [], [])

  datatype Step =
    | Reserve(key: string)
    | Release(id: nat)
    | Submit(id: nat)
    | StartWorker(id: nat)
    | Signal(id: nat)
    | Withdraw(id: nat)
    | Next(w: nat)
    | Wake(w: nat)
    | Finish(w: nat)
    | Cleaned(w: nat)

  predicate InPhase(g: Gate, id: nat, p: Phase) { id < |g.tickets| && g.tickets[id].phase == p }

  function Moved(g: Gate, id: nat, p: Phase): seq<Ticket>
    requires id < |g.tickets|
  {
    g.tickets[id := g.tickets[id].(phase := p)]
  }

  /** The queue from its first job that was not withdrawn. */
  function Live(g: Gate, jobs: seq<nat>): seq<nat> {
    if |jobs| > 0 && InPhase(g, jobs[0], Withdrawn) then Live(g, jobs[1..]) else jobs
  }

  /** One lock-protected block, or one channel operation. A step that is not enabled changes nothing. */
  function Apply(g: Gate, step: Step): Gate {
    match step
    case Reserve(key) =>
      if key == "" || key in g.keys then g
      else g.(tickets := g.tickets + [Ticket(key, Held)], keys := g.keys + {key})
    case Release(id) =>
      if !InPhase(g, id, Held) then g
      else g.(tickets := Moved(g, id, Released), keys := g.keys - {g.tickets[id].key})
    case Submit(id) =>
      if !InPhase(g, id, Held) then g
      else g.(tickets := Moved(g, id, Waiting), jobs := g.jobs + [id], starting := g.starting + {id},
              submitted := g.submitted + [id])
    case StartWorker(id) =>
      if id !in g.starting then g
      else g.(once := true, workers := if g.once then g.workers else g.workers + [Scanning],
              starting := g.starting - {id}, signalling := g.signalling + {id})
    case Signal(id) =>
      if id !in g.signalling then g else g.(wake := true, signalling := g.signalling - {id})
    case Withdraw(id) =>
      if !InPhase(g, id, Waiting) then g
      else g.(tickets := Moved(g, id, Withdrawn), keys := g.keys - {g.tickets[id].key})
    case Next(w) =>
      if w >= |g.workers| || !g.workers[w].Scanning? then g
      else
        var live := Live(g, g.jobs);
        if |live| == 0 then g.(jobs := [], workers := g.workers[w := Blocked])
        else if live[0] >= |g.tickets| then g
        else g.(tickets := Moved(g, live[0], Taken), jobs := live[1..], workers := g.workers[w := Busy(live[0])],
                taken := g.taken + [live[0]])
    case Wake(w) =>
      if w >= |g.workers| || !g.workers[w].Blocked? || !g.wake then g
      else g.(wake := false, workers := g.workers[w := Scanning])
    case Finish(w) =>
      if w >= |g.workers| || !g.workers[w].Busy? || g.workers[w].id >= |g.tickets| then g
      else g.(tickets := Moved(g, g.workers[w].id, Finished), keys := g.keys - {g.tickets[g.workers[w].id].key},
              workers := g.workers[w := Cleaning])
    case Cleaned(w) =>
      if w >= |g.workers| || !g.workers[w].Cleaning? then g else g.(workers := g.workers[w := Scanning])
  }

  function Run(steps: seq<Step>): Gate {
    if |steps| == 0 then INITIAL else Apply(Run(steps[..|steps| - 1]), steps[|steps| - 1])
  }

  // ---- what every reachable state keeps ----

  predicate Owning(p: Phase) { p.Held? || p.Waiting? || p.Taken? }

  ghost predicate HasOwner(g: Gate, key: string) {
    exists i :: 0 <= i < |g.tickets| && Owning(g.tickets[i].phase) && g.tickets[i].key == key
  }

  /** The busy keys are those of the unsubmitted tickets, of the queued jobs that were not withdrawn and
      of the job a worker holds, each owned once. */
  ghost predicate KeysOwned(g: Gate) {
    && (forall i :: 0 <= i < |g.tickets| && Owning(g.tickets[i].phase) ==> g.tickets[i].key in g.keys)
    && (forall k :: k in g.keys ==> HasOwner(g, k))
    && (forall i, j :: 0 <= i < j < |g.tickets| && Owning(g.tickets[i].phase) && Owning(g.tickets[j].phase) ==>
         g.tickets[i].key != g.tickets[j].key)
  }

  /** The queue holds every waiting job once, and nothing but waiting and withdrawn jobs. */
  ghost predicate QueueOk(g: Gate) {
    && (forall i :: 0 <= i < |g.jobs| ==> InPhase(g, g.jobs[i], Waiting) || InPhase(g, g.jobs[i], Withdrawn))
    && (forall i, j :: 0 <= i < j < |g.jobs| ==> g.jobs[i] != g.jobs[j])
    && (forall id: nat :: InPhase(g, id, Waiting) ==> id in g.jobs)
  }

  /** There is at most one worker, and it holds the one job that is taken and unfinished. */
  ghost predicate WorkerOk(g: Gate) {
    && |g.workers| == (if g.once then 1 else 0)
    && (forall id: nat :: InPhase(g, id, Taken) ==> |g.workers| == 1 && g.workers[0] == Busy(id))
    && (|g.workers| == 1 && g.workers[0].Busy? ==> InPhase(g, g.workers[0].id, Taken))
  }

  function NotWithdrawn(g: Gate, ids: seq<nat>): seq<nat> { Filter((id: nat) => !InPhase(g, id, Withdrawn), ids) }

  predicate Over(g: Gate, id: nat) { InPhase(g, id, Withdrawn) || InPhase(g, id, Taken) || InPhase(g, id, Finished) }

  ghost predicate FifoAt(g: Gate, passed: seq<nat>) {
    && g.submitted == passed + g.jobs
    && g.taken == NotWithdrawn(g, passed)
    && (forall i :: 0 <= i < |passed| ==> Over(g, passed[i]))
  }

  /** Jobs were taken in submission order, withdrawn ones left out. */
  ghost predicate Fifo(g: Gate) {
    |g.jobs| <= |g.submitted| && FifoAt(g, g.submitted[..|g.submitted| - |g.jobs|])
  }

  /** No wake-up is lost: a worker is only blocked beside a queued job while a token is there or the
      job's submitter has not signalled yet. */
  ghost predicate NoLostWakeup(g: Gate) {
    && (|g.workers| == 1 && g.workers[0].Blocked? ==>
         forall id :: id in g.jobs ==> g.wake || id in g.starting || id in g.signalling)
    && (!g.once ==> forall id :: id in g.jobs ==> id in g.starting)
  }

  ghost predicate Inv(g: Gate) {
    KeysOwned(g) && QueueOk(g) && WorkerOk(g) && Fifo(g) && NoLostWakeup(g)
  }

  // ---- one step at a time ----

  lemma {:induction false} LiveFacts(g: Gate, jobs: seq<nat>)
    ensures var live := Live(g, jobs);
            && |live| <= |jobs| && live == jobs[|jobs| - |live|..]
            && (forall i :: 0 <= i < |jobs| - |live| ==> InPhase(g, jobs[i], Withdrawn))
            && (|live| > 0 ==> !InPhase(g, live[0], Withdrawn))
  {
    if |jobs| > 0 && InPhase(g, jobs[0], Withdrawn) {
      LiveFacts(g, jobs[1..]);
    }
  }

  /** The first live job of the queue is waiting. */
  lemma HeadWaits(g: Gate)
    requires QueueOk(g)
    ensures var live := Live(g, g.jobs); |live| > 0 ==> InPhase(g, live[0], Waiting) && live[0] in g.jobs
  {
    LiveFacts(g, g.jobs);
  }

  lemma NoneWaits(g: Gate)
    requires QueueOk(g)
    ensures |Live(g, g.jobs)| == 0 ==> forall id: nat :: !InPhase(g, id, Waiting)
  {
    LiveFacts(g, g.jobs);
  }

  lemma NextShape(g: Gate, w: nat)
    requires QueueOk(g) && w < |g.workers| && g.workers[w].Scanning?
    ensures forall i :: 0 <= i < |g.jobs| ==> g.jobs[i] < |g.tickets|
    ensures var live := Live(g, g.jobs);
            if |live| == 0 then
              && Apply(g, Next(w)) == g.(jobs := [], workers := g.workers[w := Blocked])
              && (forall id: nat :: !InPhase(g, id, Waiting))
            else
              && InPhase(g, live[0], Waiting)
              && Apply(g, Next(w)) == g.(tickets := Moved(g, live[0], Taken), jobs := live[1..],
                                         workers := g.workers[w := Busy(live[0])], taken := g.taken + [live[0]])
  {
    HeadWaits(g);
    NoneWaits(g);
  }

  /** A key taken by a new ticket. */
  lemma KeyTaken(g: Gate, key: string)
    requires KeysOwned(g)
    ensures KeysOwned(Apply(g, Reserve(key)))
  {
    var h := Apply(g, Reserve(key));
    forall k | k in h.keys ensures HasOwner(h, k) {
      if k in g.keys {
        assert HasOwner(g, k);
        var i :| 0 <= i < |g.tickets| && Owning(g.tickets[i].phase) && g.tickets[i].key == k;
        assert h.tickets[i] == g.tickets[i];
      } else {
        assert h.tickets[|g.tickets|].key == k;
      }
    }
  }

  /** An owner that stays one, or gives its key back. */
  lemma KeyPassedOn(g: Gate, h: Gate, id: nat, p: Phase)
    requires KeysOwned(g) && id < |g.tickets| && Owning(g.tickets[id].phase) && h.tickets == Moved(g, id, p)
    requires h.keys == if Owning(p) then g.keys else g.keys - {g.tickets[id].key}
    ensures KeysOwned(h)
  {
    forall k | k in h.keys ensures HasOwner(h, k) {
      assert HasOwner(g, k);
      var i :| 0 <= i < |g.tickets| && Owning(g.tickets[i].phase) && g.tickets[i].key == k;
      assert i == id || h.tickets[i] == g.tickets[i];
      assert h.tickets[i].key == k;
    }
  }

  lemma SameKeys(g: Gate, h: Gate)
    requires KeysOwned(g) && h.tickets == g.tickets && h.keys == g.keys
    ensures KeysOwned(h)
  {
    forall k | k in h.keys ensures HasOwner(h, k) {
      assert HasOwner(g, k);
    }
  }

  lemma KeysKept(g: Gate, step: Step)
    requires KeysOwned(g) && QueueOk(g) && WorkerOk(g)
    ensures KeysOwned(Apply(g, step))
  {
    hide KeysOwned, Live;
    var h := Apply(g, step);
    if h.tickets == g.tickets && h.keys == g.keys {
      SameKeys(g, h);
    } else {
      match step
      case Reserve(key) => KeyTaken(g, key);
      case Release(id) => KeyPassedOn(g, h, id, Released);
      case Submit(id) => KeyPassedOn(g, h, id, Waiting);
      case Withdraw(id) => KeyPassedOn(g, h, id, Withdrawn);
      case Next(w) =>
        HeadWaits(g);
        KeyPassedOn(g, h, Live(g, g.jobs)[0], Taken);
      case Finish(w) => KeyPassedOn(g, h, g.workers[w].id, Finished);
      case _ =>
    }
  }

  lemma QueueKept(g: Gate, step: Step)
    requires QueueOk(g) && WorkerOk(g)
    ensures QueueOk(Apply(g, step))
  {
    hide Live, QueueOk;
    var h := Apply(g, step);
    match step
    case Reserve(key) => QueueSame(g, h);
    case Release(id) => if h != g { QueueMoved(g, h, id, Released); }
    case Submit(id) => if h != g { SubmitQueue(g, id); }
    case Withdraw(id) => if h != g { QueueMoved(g, h, id, Withdrawn); }
    case Next(w) => if h != g { NextQueue(g, w); }
    case Finish(w) => if h != g { QueueMoved(g, h, g.workers[w].id, Finished); }
    case _ => QueueSame(g, h);
  }

  lemma QueueSame(g: Gate, h: Gate)
    requires QueueOk(g) && h.jobs == g.jobs && g.tickets <= h.tickets
    requires forall i :: |g.tickets| <= i < |h.tickets| ==> h.tickets[i].phase.Held?
    ensures QueueOk(h)
  {
    forall id: nat | InPhase(h, id, Waiting) ensures id in h.jobs {
      assert InPhase(g, id, Waiting);
    }
  }

  /** A ticket that is not waiting afterwards, and was not queued or stays in the queue withdrawn. */
  lemma QueueMoved(g: Gate, h: Gate, id: nat, p: Phase)
    requires QueueOk(g) && h.jobs == g.jobs && id < |g.tickets| && h.tickets == Moved(g, id, p) && !p.Waiting?
    requires !InPhase(g, id, Withdrawn) && (InPhase(g, id, Waiting) ==> p.Withdrawn?)
    ensures QueueOk(h)
  {
    forall i: nat | InPhase(h, i, Waiting) ensures i in h.jobs {
      assert InPhase(g, i, Waiting);
    }
  }

  lemma SubmitQueue(g: Gate, id: nat)
    requires QueueOk(g) && InPhase(g, id, Held)
    ensures QueueOk(Apply(g, Submit(id)))
  {
    var h := Apply(g, Submit(id));
    forall i: nat | InPhase(h, i, Waiting) ensures i in h.jobs {
      if i != id {
        assert InPhase(g, i, Waiting);
        var k :| 0 <= k < |g.jobs| && g.jobs[k] == i;
        assert h.jobs[k] == i;
      } else {
        assert h.jobs[|g.jobs|] == i;
      }
    }
  }

  lemma NextQueue(g: Gate, w: nat)
    requires QueueOk(g) && w < |g.workers| && g.workers[w].Scanning?
    ensures QueueOk(Apply(g, Next(w)))
  {
    hide Live;
    var (h, live) := (Apply(g, Next(w)), Live(g, g.jobs));
    LiveFacts(g, g.jobs);
    HeadWaits(g);
    var n := |g.jobs| - |live|;
    forall id: nat | InPhase(h, id, Waiting) ensures id in h.jobs {
      assert InPhase(g, id, Waiting);
      var i :| 0 <= i < |g.jobs| && g.jobs[i] == id;
      assert live[i - n] == id;
      assert |live| > 0 && live[0] != id;
      assert h.jobs[i - n - 1] == id;
    }
  }

  lemma WorkerKept(g: Gate, step: Step)
    requires QueueOk(g) && WorkerOk(g)
    ensures WorkerOk(Apply(g, step))
  {
    hide Live;
    HeadWaits(g);
    var h := Apply(g, step);
    forall id: nat | InPhase(h, id, Taken) ensures |h.workers| == 1 && h.workers[0] == Busy(id) {
      if InPhase(g, id, Taken) {
        assert g.workers[0] == Busy(id);
      } else {
        assert step.Next?;
      }
    }
  }

  lemma WakeupKept(g: Gate, step: Step)
    requires WorkerOk(g) && NoLostWakeup(g)
    ensures NoLostWakeup(Apply(g, step))
  {
    hide Live, Moved, InPhase;
    if step.Next? {
      LiveFacts(g, g.jobs);
    }
  }

  // ---- first in, first out ----

  lemma {:induction false} SameWithdrawn(g: Gate, h: Gate, ids: seq<nat>)
    requires forall i :: 0 <= i < |ids| ==> (InPhase(g, ids[i], Withdrawn) <==> InPhase(h, ids[i], Withdrawn))
    ensures NotWithdrawn(g, ids) == NotWithdrawn(h, ids)
  {
    if |ids| > 0 {
      SameWithdrawn(g, h, ids[..|ids| - 1]);
    }
  }

  lemma {:induction false} AllWithdrawn(g: Gate, ids: seq<nat>, more: seq<nat>)
    requires forall i :: 0 <= i < |more| ==> InPhase(g, more[i], Withdrawn)
    ensures NotWithdrawn(g, ids + more) == NotWithdrawn(g, ids)
  {
    if |more| > 0 {
      assert (ids + more)[..|ids + more| - 1] == ids + more[..|more| - 1];
      AllWithdrawn(g, ids, more[..|more| - 1]);
    } else {
      assert ids + more == ids;
    }
  }

  lemma FifoFrom(g: Gate, passed: seq<nat>)
    requires FifoAt(g, passed)
    ensures Fifo(g)
  {
    hide Filter;
    assert g.submitted[..|g.submitted| - |g.jobs|] == passed;
  }

  lemma FifoPassed(g: Gate) returns (passed: seq<nat>)
    requires Fifo(g)
    ensures FifoAt(g, passed)
  {
    return g.submitted[..|g.submitted| - |g.jobs|];
  }

  /** A step that neither queues nor takes a job. */
  lemma QuietFifo(g: Gate, h: Gate)
    requires Fifo(g) && h.submitted == g.submitted && h.jobs == g.jobs && h.taken == g.taken
    requires forall id: nat :: Over(g, id) ==> Over(h, id) && (InPhase(g, id, Withdrawn) <==> InPhase(h, id, Withdrawn))
    ensures Fifo(h)
  {
    var passed := FifoPassed(g);
    SameWithdrawn(g, h, passed);
    FifoFrom(h, passed);
  }

  /** A job is submitted behind the others. */
  lemma SubmitFifo(g: Gate, id: nat)
    requires Fifo(g) && InPhase(g, id, Held)
    ensures Fifo(Apply(g, Submit(id)))
  {
    var h := Apply(g, Submit(id));
    var passed := FifoPassed(g);
    forall i | 0 <= i < |passed| ensures passed[i] != id && Over(h, passed[i]) {
      assert Over(g, passed[i]);
    }
    SameWithdrawn(g, h, passed);
    assert h.submitted == passed + (g.jobs + [id]);
    FifoFrom(h, passed);
  }

  /** The withdrawn jobs at the head of the queue are passed over. */
  lemma PassOver(g: Gate, live: seq<nat>) returns (passed: seq<nat>)
    requires Fifo(g) && live == Live(g, g.jobs)
    ensures g.submitted == passed + live && g.taken == NotWithdrawn(g, passed)
    ensures forall i :: 0 <= i < |passed| ==> Over(g, passed[i])
  {
    hide Live, Filter, Fifo, NotWithdrawn;
    var before := FifoPassed(g);
    LiveFacts(g, g.jobs);
    var skipped := g.jobs[..|g.jobs| - |live|];
    AllWithdrawn(g, before, skipped);
    passed := before + skipped;
    assert g.jobs == skipped + live;
    assert passed + live == before + (skipped + live);
  }

  /** A worker takes the first live job, or finds none. */
  lemma NextFifo(g: Gate, w: nat)
    requires Fifo(g) && QueueOk(g) && w < |g.workers| && g.workers[w].Scanning?
    ensures Fifo(Apply(g, Next(w)))
  {
    hide Live, QueueOk, Fifo;
    var (h, live) := (Apply(g, Next(w)), Live(g, g.jobs));
    HeadWaits(g);
    var passed := PassOver(g, live);
    if |live| == 0 {
      assert passed + live == passed + h.jobs;
      SameWithdrawn(g, h, passed);
      FifoFrom(h, passed);
    } else {
      var j := live[0];
      forall i | 0 <= i < |passed| ensures passed[i] != j && Over(h, passed[i]) {
        assert Over(g, passed[i]);
      }
      SameWithdrawn(g, h, passed);
      TakeFifo(g, h, passed, live);
    }
  }

  lemma TakeFifo(g: Gate, h: Gate, passed: seq<nat>, live: seq<nat>)
    requires |live| > 0 && g.submitted == passed + live && h.submitted == g.submitted && h.jobs == live[1..]
    requires h.taken == NotWithdrawn(h, passed) + [live[0]] && InPhase(h, live[0], Taken)
    requires forall i :: 0 <= i < |passed| ==> Over(h, passed[i])
    ensures Fifo(h)
  {
    hide Fifo;
    var after := passed + [live[0]];
    assert passed + live == after + live[1..];
    assert after[..|after| - 1] == passed;
    FifoFrom(h, after);
  }

  lemma FifoKept(g: Gate, step: Step)
    requires Fifo(g) && QueueOk(g) && WorkerOk(g)
    ensures Fifo(Apply(g, step))
  {
    hide Live, QueueOk, Fifo;
    var h := Apply(g, step);
    if h != g {
      match step
      case Submit(id) => SubmitFifo(g, id);
      case Next(w) => NextFifo(g, w);
      case _ => QuietFifo(g, h);
    }
  }

  // ---- every reachable state ----

  /** Under every interleaving of submitters, withdrawals and the worker. */
  lemma {:induction false} ReachableInv(steps: seq<Step>)
    ensures Inv(Run(steps))
  {
    hide Apply, KeysOwned, QueueOk, WorkerOk, Fifo, NoLostWakeup;
    if |steps| == 0 {
      InitialInv();
    } else {
      ReachableInv(steps[..|steps| - 1]);
      InvKept(Run(steps[..|steps| - 1]), steps[|steps| - 1]);
    }
  }

  lemma InvKept(g: Gate, step: Step)
    requires Inv(g)
    ensures Inv(Apply(g, step))
  {
    hide Apply, KeysOwned, QueueOk, WorkerOk, Fifo, NoLostWakeup;
    KeysKept(g, step);
    QueueKept(g, step);
    WorkerKept(g, step);
    FifoKept(g, step);
    WakeupKept(g, step);
  }

  lemma InitialInv()
    ensures Inv(INITIAL)
  {
    assert FifoAt(INITIAL, []);
    FifoFrom(INITIAL, []);
  }

  /** At most one job is taken and unfinished at any time: the gate runs one workflow after another. */
  lemma OneRunsAtATime(steps: seq<Step>, a: nat, b: nat)
    requires InPhase(Run(steps), a, Taken) && InPhase(Run(steps), b, Taken)
    ensures a == b
  {
    hide Run, KeysOwned, QueueOk, Fifo, NoLostWakeup;
    ReachableInv(steps);
  }

  predicate Queued(g: Gate, id: nat) { InPhase(g, id, Waiting) || Over(g, id) }

  /** No ticket is submitted twice. */
  ghost predicate SubmittedOnce(g: Gate) {
    && (forall i :: 0 <= i < |g.submitted| ==> Queued(g, g.submitted[i]))
    && Pairwise((a, b) => a != b, g.submitted)
  }

  lemma QueuedStays(g: Gate, step: Step)
    requires QueueOk(g) && WorkerOk(g)
    ensures forall id: nat :: Queued(g, id) ==> Queued(Apply(g, step), id)
  {
    hide Live;
    HeadWaits(g);
  }

  lemma OnceKept(g: Gate, step: Step)
    requires SubmittedOnce(g) && QueueOk(g) && WorkerOk(g)
    ensures SubmittedOnce(Apply(g, step))
  {
    hide Live, QueueOk, WorkerOk;
    var h := Apply(g, step);
    QueuedStays(g, step);
    if h.submitted != g.submitted {
      hide Queued;
      NewJob(g, step.id);
    }
  }

  lemma NewJob(g: Gate, id: nat)
    requires SubmittedOnce(g) && InPhase(g, id, Held)
    ensures Queued(Apply(g, Submit(id)), id) && forall i :: 0 <= i < |g.submitted| ==> g.submitted[i] != id
  {
    assert !Queued(g, id);
  }

  lemma {:induction false} ReachableOnce(steps: seq<Step>)
    ensures SubmittedOnce(Run(steps))
  {
    hide KeysOwned, QueueOk, WorkerOk, Fifo, NoLostWakeup, Apply;
    if |steps| > 0 {
      ReachableOnce(steps[..|steps| - 1]);
      ReachableInv(steps[..|steps| - 1]);
      OnceKept(Run(steps[..|steps| - 1]), steps[|steps| - 1]);
    }
  }

  /** Jobs are taken once each, in submission order, and exactly the withdrawn ones are left out. */
  lemma TakenInOrder(steps: seq<Step>)
    ensures var g := Run(steps);
            && Pairwise((a, b) => a != b, g.taken)
            && |g.jobs| <= |g.submitted|
            && g.taken == NotWithdrawn(g, g.submitted[..|g.submitted| - |g.jobs|])
            && (forall id: nat :: InPhase(g, id, Withdrawn) ==> id !in g.taken)
  {
    hide Run, KeysOwned, QueueOk, WorkerOk, NoLostWakeup;
    var g := Run(steps);
    ReachableInv(steps);
    ReachableOnce(steps);
    var passed := g.submitted[..|g.submitted| - |g.jobs|];
    FilterKeepsPairwise((a: nat, b: nat) => a != b, (id: nat) => !InPhase(g, id, Withdrawn), passed);
    FilterElements((id: nat) => !InPhase(g, id, Withdrawn), passed);
  }

  /** Once a withdrawal has succeeded the job never runs, whatever happens later. */
  lemma {:induction false} WithdrawnNeverRuns(steps: seq<Step>, more: seq<Step>, id: nat)
    requires InPhase(Run(steps), id, Withdrawn)
    ensures InPhase(Run(steps + more), id, Withdrawn) && id !in Run(steps + more).taken
  {
    if |more| == 0 {
      assert steps + more == steps;
    } else {
      var (front, last) := (more[..|more| - 1], more[|more| - 1]);
      WithdrawnNeverRuns(steps, front, id);
      assert (steps + more)[..|steps + more| - 1] == steps + front;
      ReachableInv(steps + front);
      WithdrawnStays(Run(steps + front), last, id);
    }
    TakenInOrder(steps + more);
  }

  lemma WithdrawnStays(g: Gate, step: Step, id: nat)
    requires QueueOk(g) && WorkerOk(g) && InPhase(g, id, Withdrawn)
    ensures InPhase(Apply(g, step), id, Withdrawn)
  {
    hide Live;
    HeadWaits(g);
  }

  /** Withdrawing the job of a ticket that was released before it was submitted: the job was never queued,
      but its key is freed. */
  function WithdrawUnsubmitted(g: Gate, id: nat): Gate
    requires InPhase(g, id, Released)
  {
    g.(keys := g.keys - {g.tickets[id].key})
  }

  /** That misuse of a ticket is harmless exactly while the key is free; otherwise it takes the key from its
      owner, and the workflow could be queued or run twice. */
  lemma UseTicketsOnce(g: Gate, id: nat)
    requires KeysOwned(g) && InPhase(g, id, Released)
    ensures KeysOwned(WithdrawUnsubmitted(g, id)) <==> g.tickets[id].key !in g.keys
  {
    var (h, key) := (WithdrawUnsubmitted(g, id), g.tickets[id].key);
    if key in g.keys {
      assert HasOwner(g, key);
      var i :| 0 <= i < |g.tickets| && Owning(g.tickets[i].phase) && g.tickets[i].key == key;
      assert h.tickets[i].key !in h.keys;
    } else {
      assert h.keys == g.keys;
      SameKeys(g, h);
    }
  }

  // ---- nothing is left waiting ----

  /** A step the gate makes by itself: no caller reserves, releases, submits or withdraws. */
  predicate Internal(step: Step) {
    step.StartWorker? || step.Signal? || step.Next? || step.Wake? || step.Finish? || step.Cleaned?
  }

  function WorkerWeight(workers: seq<Worker>): nat {
    if |workers| == 0 then 0
    else match workers[0] case Blocked => 0 case Scanning => 1 case Cleaning => 2 case Busy(_) => 3
  }

  /** What is left to do before the gate is quiet. */
  function Left(g: Gate): nat {
    10 * |g.jobs| + 6 * |g.starting| + 4 * |g.signalling| + (if g.wake then 2 else 0) + WorkerWeight(g.workers)
  }

  /** Every internal step brings the gate nearer to being quiet. */
  lemma InternalStepsEnd(g: Gate, step: Step)
    requires QueueOk(g) && WorkerOk(g) && Internal(step) && Apply(g, step) != g
    ensures Left(Apply(g, step)) < Left(g)
  {
    hide Apply, QueueOk, WorkerOk, Left;
    OneWorker(g);
    match step
    case StartWorker(id) => StartEnds(g, id);
    case Next(w) => NextEnds(g, w);
    case _ => WorkerStepEnds(g, step);
  }

  lemma StartEnds(g: Gate, id: nat)
    requires |g.workers| <= 1 && (!g.once ==> |g.workers| == 0) && Apply(g, StartWorker(id)) != g
    ensures Left(Apply(g, StartWorker(id))) < Left(g)
  {
    StartingShrinks(g, id);
  }

  lemma NextEnds(g: Gate, w: nat)
    requires |g.workers| <= 1 && Apply(g, Next(w)) != g
    ensures Left(Apply(g, Next(w))) < Left(g)
  {
    hide Live, InPhase, Moved;
    LiveFacts(g, g.jobs);
  }

  lemma WorkerStepEnds(g: Gate, step: Step)
    requires |g.workers| <= 1 && Apply(g, step) != g && (step.Signal? || step.Wake? || step.Finish? || step.Cleaned?)
    ensures Left(Apply(g, step)) < Left(g)
  {
    hide Live, InPhase, Moved;
  }

  lemma OneWorker(g: Gate)
    requires WorkerOk(g)
    ensures |g.workers| <= 1 && (!g.once ==> |g.workers| == 0)
  {
    hide InPhase;
  }

  lemma StartingShrinks(g: Gate, id: nat)
    requires id in g.starting
    ensures |g.starting - {id}| == |g.starting| - 1 && |g.signalling + {id}| <= |g.signalling| + 1
  {
  }

  /** And when no internal step is left no job waits: the worker is blocked, or was never needed, and
      only unsubmitted tickets keep their keys busy. */
  lemma QuietMeansServed(steps: seq<Step>)
    requires forall step :: Internal(step) ==> Apply(Run(steps), step) == Run(steps)
    ensures var g := Run(steps);
            && (forall id: nat :: !InPhase(g, id, Waiting) && !InPhase(g, id, Taken))
            && (forall k :: k in g.keys ==> exists i :: 0 <= i < |g.tickets| && g.tickets[i] == Ticket(k, Held))
  {
    hide Run, Live, Fifo;
    var g := Run(steps);
    ReachableInv(steps);
    forall id: nat ensures id !in g.starting && id !in g.signalling {
      assert Apply(g, StartWorker(id)) == g && Apply(g, Signal(id)) == g;
    }
    if |g.workers| == 1 {
      WorkerIsBlocked(g);
    }
    assert forall id: nat :: id !in g.jobs;
    forall k | k in g.keys ensures exists i :: 0 <= i < |g.tickets| && g.tickets[i] == Ticket(k, Held) {
      assert HasOwner(g, k);
      var i :| 0 <= i < |g.tickets| && Owning(g.tickets[i].phase) && g.tickets[i].key == k;
      assert !InPhase(g, i, Waiting) && !InPhase(g, i, Taken);
      assert g.tickets[i] == Ticket(k, Held);
    }
  }

  lemma WorkerIsBlocked(g: Gate)
    requires QueueOk(g) && WorkerOk(g) && |g.workers| == 1
    requires forall step :: Internal(step) ==> Apply(g, step) == g
    ensures g.workers[0].Blocked? && !g.wake
  {
    hide Live;
    HeadWaits(g);
    assert Apply(g, Next(0)) == g && Apply(g, Wake(0)) == g && Apply(g, Finish(0)) == g && Apply(g, Cleaned(0)) == g;
    var h := Apply(g, Next(0));
    assert h.workers == g.workers;
  }

  // ---- the object ----

  class Scheduler {
    var tickets: seq<Ticket>
    var keys: set<string>
    var jobs: seq<nat>
    var wake: bool
    var once: bool
    ghost var starting: set<nat>
    ghost var signalling: set<nat>
    ghost var workers: seq<Worker>
    ghost var submitted: seq<nat>
    ghost var taken: seq<nat>

    ghost function State(): Gate
      reads this
    {
      Gate(tickets, keys, jobs, wake, starting, signalling, once, workers, submitted, taken)
    }

    constructor ()
      ensures State() == INITIAL
    {
      tickets, keys, jobs, wake, once := [], {}, [], false, false;
      starting, signalling, workers, submitted, taken := {}, {}, [], [], [];
    }

    /** Claims the key, or refuses a duplicate. */
    method Reserve(key: string) returns (ticket: Option<nat>)
      modifies this
      ensures State() == Apply(old(State()), Step.Reserve(key))
      ensures ticket == if key == "" || key in old(keys) then None else Some(|old(tickets)|)
    {
      if key == "" {
        return None;
      }
      if key in keys {
        return None;
      }
      keys := keys + {key};
      ticket := Some(|tickets|);
      tickets := tickets + [Ticket(key, Held)];
    }

    method Release(id: nat)
      requires id < |tickets|
      modifies this
      ensures State() == Apply(old(State()), Step.Release(id))
    {
      if !tickets[id].phase.Held? {
        return;
      }
      keys := keys - {tickets[id].key};
      tickets := tickets[id := tickets[id].(phase := Released)];
    }

    /** The locked part of a submission. */
    method Append(id: nat)
      requires id < |tickets|
      modifies this
      ensures State() == Apply(old(State()), Submit(id))
    {
      if !tickets[id].phase.Held? {
        return;
      }
      tickets := tickets[id := tickets[id].(phase := Waiting)];
      jobs := jobs + [id];
      starting, submitted := starting + {id}, submitted + [id];
    }

    /** The first submitter starts the worker. */
    method StartWorker(id: nat)
      requires id in starting
      modifies this
      ensures State() == Apply(old(State()), Step.StartWorker(id))
    {
      if !once {
        once := true;
        workers := workers + [Scanning];
      }
      starting, signalling := starting - {id}, signalling + {id};
    }

    /** Puts a token into the wake channel unless one is there. */
    method Signal(id: nat)
      requires id in signalling
      modifies this
      ensures State() == Apply(old(State()), Step.Signal(id))
    {
      if !wake {
        wake := true;
      }
      signalling := signalling - {id};
    }

    /** Removes a job that has not started; tells whether it did. */
    method Withdraw(id: nat) returns (ok: bool)
      requires id < |tickets| && !tickets[id].phase.Held? && !tickets[id].phase.Released?
      modifies this
      ensures ok <==> InPhase(old(State()), id, Waiting)
      ensures State() == Apply(old(State()), Step.Withdraw(id))
    {
      if !tickets[id].phase.Waiting? {
        return false;
      }
      keys := keys - {tickets[id].key};
      tickets := tickets[id := tickets[id].(phase := Withdrawn)];
      return true;
    }

    /** Drops the withdrawn jobs at the head of the queue and takes the next one, if any. */
    method Pop() returns (job: Option<nat>)
      requires forall i :: 0 <= i < |jobs| ==> jobs[i] < |tickets|
      modifies this`jobs
      ensures var live := Live(old(State()), old(jobs));
              if |live| == 0 then job.None? && jobs == [] else job == Some(live[0]) && jobs == live[1..]
    {
      ghost var g := State();
      while |jobs| > 0
        invariant Live(g, jobs) == Live(g, g.jobs)
        invariant forall i :: 0 <= i < |jobs| ==> jobs[i] < |tickets|
        decreases |jobs|
      {
        var j := jobs[0];
        jobs := jobs[1..];
        if tickets[j].phase.Withdrawn? {
          continue;
        }
        return Some(j);
      }
      jobs := [];
      return None;
    }

    /** The next runnable job, in order; none means that no job waits and the worker goes to sleep. */
    method Next(ghost w: nat) returns (job: Option<nat>)
      requires Inv(State()) && w < |workers| && workers[w].Scanning?
      modifies this
      ensures State() == Apply(old(State()), Step.Next(w))
      ensures job.Some? ==> InPhase(old(State()), job.value, Waiting) && InPhase(State(), job.value, Taken)
      ensures job.None? ==> forall id: nat :: !InPhase(old(State()), id, Waiting)
    {
      hide KeysOwned, WorkerOk, Fifo, NoLostWakeup, Apply, Live;
      NextShape(State(), w);
      job := Pop();
      if job.None? {
        workers := workers[w := Blocked];
      } else {
        tickets := tickets[job.value := tickets[job.value].(phase := Taken)];
        workers, taken := workers[w := Busy(job.value)], taken + [job.value];
      }
    }

    /** The job is over: its key is free again. */
    method Finish(ghost w: nat, id: nat)
      requires w < |workers| && workers[w] == Busy(id) && id < |tickets|
      modifies this
      ensures State() == Apply(old(State()), Step.Finish(w))
    {
      keys := keys - {tickets[id].key};
      tickets := tickets[id := tickets[id].(phase := Finished)];
      workers := workers[w := Cleaning];
    }
  }
}
