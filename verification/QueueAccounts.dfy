/** The manager's bookkeeping around the gate: how many accepted executions are unfinished, and which
    workflows are active. Every atomic update of the source is one move; the caller that starts an
    execution, the watcher of its cancellation and the job itself move independently. */
module QueueAccounts {
  import opened ExecutionGate

  /** Where the call that starts an execution stands. */
  datatype Starter = Foreign | Claimed | OverLimit | Counted | Undone | Refused | Accepted | Submitted

  /** The goroutine that waits for a cancellation while the job is queued. */
  datatype Watcher = Idle | Won | Uncounted | Cleared

  /** The deferred part of the job, in the order in which it runs. */
  datatype Cleanup = NotRun | Unmarked | Ended

  /** One ticket's execution; `Foreign` tickets belong to other callers of the gate. */
  datatype Exec = Exec(key: string, starter: Starter, watcher: Watcher, cleanup: Cleanup)

  datatype Manager = Manager(gate: Gate, execs: seq<Exec>, queued: int, active: map<string, int>)

  const EMPTY := Manager(INITIAL, [], 0, map[])

  datatype Move =
    | Claim(key: string)          // Start or recoverOne reserves the workflow's key
    | Count(id: nat)              // the queue counter is raised and compared
    | UndoCount(id: nat)          // and lowered again when it was over the limit
    | GiveUp(id: nat)             // the checkpoint failed, or the manager is stopping
    | GiveBack(id: nat)           // the ticket is released
    | Mark(id: nat)               // the workflow is marked active
    | Hand(id: nat)               // the job is submitted
    | Watch(id: nat)              // the cancelled job is withdrawn, if it still waits
    | WatchUncount(id: nat)
    | WatchUnmark(id: nat)
    | JobUnmark(id: nat)          // the taken job is over
    | JobUncount(id: nat)
    | Gated(step: Step)           // the gate's own steps and those of other callers

  predicate At(m: Manager, id: nat, s: Starter) { id < |m.execs| && m.execs[id].starter == s }

  function ActiveRuns(m: Manager, key: string): int { if key in m.active then m.active[key] else 0 }

  function MarkActive(active: map<string, int>, key: string): map<string, int> {
    active[key := (if key in active then active[key] else 0) + 1]
  }

  function UnmarkActive(active: map<string, int>, key: string): map<string, int> {
    if key !in active || active[key] <= 1 then active - {key} else active[key := active[key] - 1]
  }

  /** What other callers and the gate itself may do: not touch the manager's own tickets, and free a
      managed job's key only when its deferred part is through. */
  predicate Allowed(m: Manager, step: Step) {
    match step
    case Reserve(_) => true
    case Release(id) => At(m, id, Foreign)
    case Submit(id) => At(m, id, Foreign)
    case Withdraw(id) => At(m, id, Foreign)
    case Finish(w) =>
      w < |m.gate.workers| && m.gate.workers[w].Busy? && m.gate.workers[w].id < |m.execs|
      && (m.execs[m.gate.workers[w].id].starter.Foreign? || m.execs[m.gate.workers[w].id].cleanup.Ended?)
    case _ => true
  }

  function SetStarter(m: Manager, id: nat, s: Starter): seq<Exec>
    requires id < |m.execs|
  {
    m.execs[id := m.execs[id].(starter := s)]
  }

  function AfterMove(m: Manager, maxQueued: int, move: Move): Manager {
    match move
    case Claim(key) =>
      var g := ExecutionGate.Apply(m.gate, Reserve(key));
      if g == m.gate then m else m.(gate := g, execs := m.execs + [Exec(key, Claimed, Idle, NotRun)])
    case Count(id) =>
      if !At(m, id, Claimed) then m
      else m.(queued := m.queued + 1, execs := SetStarter(m, id, if m.queued + 1 > maxQueued then OverLimit else Counted))
    case UndoCount(id) =>
      if !At(m, id, OverLimit) then m else m.(queued := m.queued - 1, execs := SetStarter(m, id, Undone))
    case GiveUp(id) =>
      if !At(m, id, Counted) then m else m.(queued := m.queued - 1, execs := SetStarter(m, id, Undone))
    case GiveBack(id) =>
      if !At(m, id, Undone) then m
      else m.(gate := ExecutionGate.Apply(m.gate, Release(id)), execs := SetStarter(m, id, Refused))
    case Mark(id) =>
      if !At(m, id, Counted) then m
      else m.(active := MarkActive(m.active, m.execs[id].key), execs := SetStarter(m, id, Accepted))
    case Hand(id) =>
      if !At(m, id, Accepted) then m
      else m.(gate := ExecutionGate.Apply(m.gate, Submit(id)), execs := SetStarter(m, id, Submitted))
    case Watch(id) =>
      if !At(m, id, Submitted) || !InPhase(m.gate, id, Waiting) then m
      else m.(gate := ExecutionGate.Apply(m.gate, Withdraw(id)), execs := m.execs[id := m.execs[id].(watcher := Won)])
    case WatchUncount(id) =>
      if id >= |m.execs| || !m.execs[id].watcher.Won? then m
      else m.(queued := m.queued - 1, execs := m.execs[id := m.execs[id].(watcher := Uncounted)])
    case WatchUnmark(id) =>
      if id >= |m.execs| || !m.execs[id].watcher.Uncounted? then m
      else m.(active := UnmarkActive(m.active, m.execs[id].key), execs := m.execs[id := m.execs[id].(watcher := Cleared)])
    case JobUnmark(id) =>
      if !At(m, id, Submitted) || !InPhase(m.gate, id, Taken) || !m.execs[id].cleanup.NotRun? then m
      else m.(active := UnmarkActive(m.active, m.execs[id].key), execs := m.execs[id := m.execs[id].(cleanup := Unmarked)])
    case JobUncount(id) =>
      if id >= |m.execs| || !m.execs[id].cleanup.Unmarked? then m
      else m.(queued := m.queued - 1, execs := m.execs[id := m.execs[id].(cleanup := Ended)])
    case Gated(step) =>
      if !Allowed(m, step) then m
      else
        var g := ExecutionGate.Apply(m.gate, step);
        m.(gate := g, execs := if |g.tickets| > |m.gate.tickets| then m.execs + [Exec(g.tickets[|g.tickets| - 1].key, Foreign, Idle, NotRun)]
                               else m.execs)
  }

  function Run(maxQueued: int, moves: seq<Move>): Manager {
    if |moves| == 0 then EMPTY else AfterMove(Run(maxQueued, moves[..|moves| - 1]), maxQueued, moves[|moves| - 1])
  }

  // ---- the accounts ----

  predicate CountedBy(s: Starter) { s.OverLimit? || s.Counted? || s.Accepted? || s.Submitted? }

  /** What one execution has added to the queue counter and not taken back. */
  function QueueShare(e: Exec): int {
    (if CountedBy(e.starter) then 1 else 0) - (if e.watcher.Uncounted? || e.watcher.Cleared? then 1 else 0)
    - (if e.cleanup.Ended? then 1 else 0)
  }

  function ActiveShare(key: string, e: Exec): int {
    if e.key != key then 0
    else (if e.starter.Accepted? || e.starter.Submitted? then 1 else 0) - (if e.watcher.Cleared? then 1 else 0)
         - (if e.cleanup.NotRun? then 0 else 1)
  }

  /** Accepted, or about to be, and not finished. */
  function Commitment(e: Exec): int { if e.starter.OverLimit? then 0 else QueueShare(e) }

  function Sum(f: Exec -> int, execs: seq<Exec>): int {
    if |execs| == 0 then 0 else Sum(f, execs[..|execs| - 1]) + f(execs[|execs| - 1])
  }

  lemma {:induction false} SumUpdate(f: Exec -> int, execs: seq<Exec>, id: nat, e: Exec)
    requires id < |execs|
    ensures Sum(f, execs[id := e]) == Sum(f, execs) - f(execs[id]) + f(e)
  {
    var (n, u) := (|execs| - 1, execs[id := e]);
    if id < n {
      SumUpdate(f, execs[..n], id, e);
      assert u[..n] == execs[..n][id := e];
    } else {
      assert u[..n] == execs[..n];
    }
  }

  lemma SumAppend(f: Exec -> int, execs: seq<Exec>, e: Exec)
    ensures Sum(f, execs + [e]) == Sum(f, execs) + f(e)
  {
    assert (execs + [e])[..|execs|] == execs;
  }

  lemma {:induction false} SumHolds(f: Exec -> int, execs: seq<Exec>)
    requires forall i :: 0 <= i < |execs| ==> f(execs[i]) >= 0
    ensures Sum(f, execs) >= 0 && forall i :: 0 <= i < |execs| ==> f(execs[i]) <= Sum(f, execs)
  {
    if |execs| > 0 {
      SumHolds(f, execs[..|execs| - 1]);
      forall i | 0 <= i < |execs| ensures f(execs[i]) <= Sum(f, execs) {
        if i < |execs| - 1 {
          assert execs[..|execs| - 1][i] == execs[i];
        }
      }
    }
  }

  /** How far an execution can be while its ticket is in a phase. In particular the watcher and the
      job's deferred part never both act. */
  predicate Linked(e: Exec, t: Ticket) {
    && e.key == t.key
    && (match e.starter
        case Foreign => e.watcher.Idle? && e.cleanup.NotRun?
        case Refused => t.phase.Released? && e.watcher.Idle? && e.cleanup.NotRun?
        case Submitted =>
          (match t.phase
           case Waiting => e.watcher.Idle? && e.cleanup.NotRun?
           case Withdrawn => !e.watcher.Idle? && e.cleanup.NotRun?
           case Taken => e.watcher.Idle?
           case Finished => e.watcher.Idle? && e.cleanup.Ended?
           case _ => false)
        case _ => t.phase.Held? && e.watcher.Idle? && e.cleanup.NotRun?)
  }

  ghost predicate AllLinked(m: Manager) {
    && |m.execs| == |m.gate.tickets|
    && forall i :: 0 <= i < |m.execs| ==> Linked(m.execs[i], m.gate.tickets[i])
  }

  ghost predicate CountersOk(m: Manager, maxQueued: int) {
    && m.queued == Sum(QueueShare, m.execs)
    && Sum(Commitment, m.execs) <= maxQueued
    && (forall key: string :: ActiveRuns(m, key) == Sum(e => ActiveShare(key, e), m.execs))
    && (forall key :: key in m.active ==> m.active[key] > 0)
  }

  ghost predicate AccountsOk(m: Manager, maxQueued: int) {
    Inv(m.gate) && AllLinked(m) && CountersOk(m, maxQueued)
  }

  // ---- what every move keeps ----

  lemma SharesAreSane(e: Exec, t: Ticket)
    requires Linked(e, t)
    ensures 0 <= Commitment(e) <= QueueShare(e) <= 1
    ensures forall key :: 0 <= ActiveShare(key, e) <= 1
  {
  }

  lemma {:induction false} SumLe(f: Exec -> int, g: Exec -> int, execs: seq<Exec>)
    requires forall i :: 0 <= i < |execs| ==> f(execs[i]) <= g(execs[i])
    ensures Sum(f, execs) <= Sum(g, execs)
  {
    if |execs| > 0 {
      SumLe(f, g, execs[..|execs| - 1]);
    }
  }

  lemma CommittedAreCounted(m: Manager)
    requires AllLinked(m)
    ensures Sum(Commitment, m.execs) <= Sum(QueueShare, m.execs)
  {
    hide Linked, Commitment, QueueShare;
    forall i | 0 <= i < |m.execs| ensures Commitment(m.execs[i]) <= QueueShare(m.execs[i]) {
      SharesAreSane(m.execs[i], m.gate.tickets[i]);
    }
    SumLe(Commitment, QueueShare, m.execs);
  }

  /** A workflow with a run in flight has a positive count. */
  lemma ActiveWhileShared(m: Manager, maxQueued: int, id: nat)
    requires AllLinked(m) && CountersOk(m, maxQueued) && id < |m.execs|
    ensures ActiveShare(m.execs[id].key, m.execs[id]) <= ActiveRuns(m, m.execs[id].key)
  {
    hide Linked, ActiveShare;
    var key := m.execs[id].key;
    forall i | 0 <= i < |m.execs| ensures ActiveShare(key, m.execs[i]) >= 0 {
      SharesAreSane(m.execs[i], m.gate.tickets[i]);
    }
    SumHolds(e => ActiveShare(key, e), m.execs);
  }

  /** The counters after one execution's change of state. */
  lemma CountersMove(m: Manager, h: Manager, maxQueued: int, id: nat, e: Exec)
    requires CountersOk(m, maxQueued) && id < |m.execs| && h.execs == m.execs[id := e] && e.key == m.execs[id].key
    requires h.queued == m.queued - QueueShare(m.execs[id]) + QueueShare(e)
    requires Sum(Commitment, m.execs) - Commitment(m.execs[id]) + Commitment(e) <= maxQueued
    requires forall key :: ActiveRuns(h, key) == ActiveRuns(m, key) - ActiveShare(key, m.execs[id]) + ActiveShare(key, e)
    requires forall key :: key in h.active ==> h.active[key] > 0
    ensures CountersOk(h, maxQueued)
  {
    hide QueueShare, Commitment, ActiveShare, ActiveRuns;
    SumUpdate(QueueShare, m.execs, id, e);
    SumUpdate(Commitment, m.execs, id, e);
    forall key: string ensures ActiveRuns(h, key) == Sum(x => ActiveShare(key, x), h.execs) {
      SumUpdate(x => ActiveShare(key, x), m.execs, id, e);
    }
  }

  /** A ticket without any share yet. */
  lemma CountersAppend(m: Manager, h: Manager, maxQueued: int, e: Exec)
    requires CountersOk(m, maxQueued) && h.execs == m.execs + [e] && h.queued == m.queued && h.active == m.active
    requires QueueShare(e) == 0 && Commitment(e) == 0 && forall key :: ActiveShare(key, e) == 0
    ensures CountersOk(h, maxQueued)
  {
    hide QueueShare, Commitment, ActiveShare;
    SumAppend(QueueShare, m.execs, e);
    SumAppend(Commitment, m.execs, e);
    forall key: string ensures ActiveRuns(h, key) == Sum(x => ActiveShare(key, x), h.execs) {
      SumAppend(x => ActiveShare(key, x), m.execs, e);
      assert ActiveRuns(h, key) == ActiveRuns(m, key);
    }
  }

  lemma MarkCounts(m: Manager, h: Manager, key: string)
    requires forall k :: k in m.active ==> m.active[k] > 0
    ensures h.active == MarkActive(m.active, key) ==>
              && (forall k :: k in h.active ==> h.active[k] > 0)
              && (forall k :: ActiveRuns(h, k) == ActiveRuns(m, k) + (if k == key then 1 else 0))
    ensures h.active == UnmarkActive(m.active, key) && ActiveRuns(m, key) > 0 ==>
              && (forall k :: k in h.active ==> h.active[k] > 0)
              && (forall k :: ActiveRuns(h, k) == ActiveRuns(m, k) - (if k == key then 1 else 0))
  {
  }

  lemma CountersKept(m: Manager, maxQueued: int, move: Move)
    requires AllLinked(m) && CountersOk(m, maxQueued)
    ensures CountersOk(AfterMove(m, maxQueued, move), maxQueued)
  {
    hide CountersOk, AllLinked, AfterMove;
    var h := AfterMove(m, maxQueued, move);
    if h.execs == m.execs && h.queued == m.queued && h.active == m.active {
      CountersSame(m, h, maxQueued);
    } else {
      match move
      case Claim(key) => CountersTicket(m, maxQueued, move);
      case Gated(step) => CountersTicket(m, maxQueued, move);
      case Hand(id) => CountersTicket(m, maxQueued, move);
      case Watch(id) => CountersTicket(m, maxQueued, move);
      case GiveBack(id) => CountersTicket(m, maxQueued, move);
      case Mark(id) => CountersActive(m, maxQueued, move, id);
      case WatchUnmark(id) => CountersActive(m, maxQueued, move, id);
      case JobUnmark(id) => CountersActive(m, maxQueued, move, id);
      case Count(id) => CountersQueue(m, maxQueued, move, id);
      case UndoCount(id) => CountersQueue(m, maxQueued, move, id);
      case GiveUp(id) => CountersQueue(m, maxQueued, move, id);
      case WatchUncount(id) => CountersQueue(m, maxQueued, move, id);
      case JobUncount(id) => CountersQueue(m, maxQueued, move, id);
    }
  }

  /** The moves that only hand a ticket on, or add one. */
  lemma CountersTicket(m: Manager, maxQueued: int, move: Move)
    requires AllLinked(m) && CountersOk(m, maxQueued)
    requires move.Claim? || move.Gated? || move.Hand? || move.Watch? || move.GiveBack?
    requires var h := AfterMove(m, maxQueued, move);
             !(h.execs == m.execs && h.queued == m.queued && h.active == m.active)
    ensures CountersOk(AfterMove(m, maxQueued, move), maxQueued)
  {
    hide CountersOk, AllLinked, Sum, ExecutionGate.Apply, InPhase;
    var h := AfterMove(m, maxQueued, move);
    match move
    case Claim(key) => CountersAppend(m, h, maxQueued, h.execs[|m.execs|]);
    case Gated(step) => CountersAppend(m, h, maxQueued, h.execs[|m.execs|]);
    case Hand(id) => CountersHand(m, h, maxQueued, id);
    case GiveBack(id) => CountersHand(m, h, maxQueued, id);
    case Watch(id) =>
      LinkedAt(m, id);
      WatchedIsIdle(m, id);
      CountersHand(m, h, maxQueued, id);
  }

  lemma WatchedIsIdle(m: Manager, id: nat)
    requires id < |m.execs| && id < |m.gate.tickets| && Linked(m.execs[id], m.gate.tickets[id])
    ensures At(m, id, Submitted) && InPhase(m.gate, id, Waiting) ==> m.execs[id].watcher.Idle?
  {
  }

  lemma CountersSame(m: Manager, h: Manager, maxQueued: int)
    requires CountersOk(m, maxQueued) && h.execs == m.execs && h.queued == m.queued && h.active == m.active
    ensures CountersOk(h, maxQueued)
  {
    forall key: string ensures ActiveRuns(h, key) == Sum(x => ActiveShare(key, x), h.execs) {
      assert ActiveRuns(h, key) == ActiveRuns(m, key);
    }
  }

  /** A change of state that moves no counter. */
  lemma CountersHand(m: Manager, h: Manager, maxQueued: int, id: nat)
    requires CountersOk(m, maxQueued) && id < |m.execs| && |h.execs| == |m.execs| && h.execs == m.execs[id := h.execs[id]]
    requires h.queued == m.queued && h.active == m.active
    requires var (a, e) := (m.execs[id], h.execs[id]);
             && e.key == a.key && QueueShare(e) == QueueShare(a) && Commitment(e) == Commitment(a)
             && forall key :: ActiveShare(key, e) == ActiveShare(key, a)
    ensures CountersOk(h, maxQueued)
  {
    CommitmentsHold(m, maxQueued);
    forall key ensures ActiveRuns(h, key) == ActiveRuns(m, key) {
    }
    CountersMove(m, h, maxQueued, id, h.execs[id]);
  }

  lemma CommitmentsHold(m: Manager, maxQueued: int)
    requires CountersOk(m, maxQueued)
    ensures m.queued == Sum(QueueShare, m.execs) && Sum(Commitment, m.execs) <= maxQueued
    ensures forall key :: key in m.active ==> m.active[key] > 0
  {
  }

  lemma CountersQueue(m: Manager, maxQueued: int, move: Move, id: nat)
    requires AllLinked(m) && CountersOk(m, maxQueued) && AfterMove(m, maxQueued, move) != m
    requires move in {Count(id), UndoCount(id), GiveUp(id), WatchUncount(id), JobUncount(id)}
    ensures CountersOk(AfterMove(m, maxQueued, move), maxQueued)
  {
    hide CountersOk, AllLinked, Sum;
    var h := AfterMove(m, maxQueued, move);
    CommitmentsHold(m, maxQueued);
    CommittedAreCounted(m);
    forall key ensures ActiveRuns(h, key) == ActiveRuns(m, key) {
    }
    LinkedAt(m, id);
    CountersMove(m, h, maxQueued, id, h.execs[id]);
  }

  lemma LinkedAt(m: Manager, id: nat)
    requires AllLinked(m) && id < |m.execs|
    ensures id < |m.gate.tickets| && Linked(m.execs[id], m.gate.tickets[id])
  {
  }

  lemma CountersActive(m: Manager, maxQueued: int, move: Move, id: nat)
    requires AllLinked(m) && CountersOk(m, maxQueued) && AfterMove(m, maxQueued, move) != m
    requires move in {Mark(id), WatchUnmark(id), JobUnmark(id)}
    ensures CountersOk(AfterMove(m, maxQueued, move), maxQueued)
  {
    hide CountersOk, AllLinked, Sum, MarkActive, UnmarkActive;
    var h := AfterMove(m, maxQueued, move);
    CommitmentsHold(m, maxQueued);
    LinkedAt(m, id);
    ActiveWhileShared(m, maxQueued, id);
    MarkCounts(m, h, m.execs[id].key);
    CountersMove(m, h, maxQueued, id, h.execs[id]);
  }

  /** The gate's own steps only move tickets as the accounts allow. */
  lemma GatedLinked(m: Manager, maxQueued: int, step: Step)
    requires AllLinked(m) && Inv(m.gate) && Allowed(m, step)
    ensures AllLinked(AfterMove(m, maxQueued, Gated(step)))
  {
    hide Live, KeysOwned, QueueOk, WorkerOk, Fifo, NoLostWakeup, AllLinked, AfterMove, Allowed;
    match step
    case Next(w) => NextLinked(m, maxQueued, w);
    case Finish(w) => FinishLinked(m, maxQueued, w);
    case Reserve(key) => ReserveLinked(m, maxQueued, key);
    case Release(id) => ForeignLinked(m, maxQueued, step, id);
    case Submit(id) => ForeignLinked(m, maxQueued, step, id);
    case Withdraw(id) => ForeignLinked(m, maxQueued, step, id);
    case _ => WorkerLinked(m, maxQueued, step);
  }

  lemma ReserveLinked(m: Manager, maxQueued: int, key: string)
    requires AllLinked(m)
    ensures AllLinked(AfterMove(m, maxQueued, Gated(Reserve(key))))
  {
  }

  /** Another caller's ticket may be in any phase. */
  lemma ForeignLinked(m: Manager, maxQueued: int, step: Step, id: nat)
    requires AllLinked(m) && Allowed(m, step) && step in {Release(id), Submit(id), Withdraw(id)}
    ensures AllLinked(AfterMove(m, maxQueued, Gated(step)))
  {
    var h := AfterMove(m, maxQueued, Gated(step));
    forall i | 0 <= i < |h.gate.tickets| ensures i < |h.execs| && Linked(h.execs[i], h.gate.tickets[i]) {
      LinkedAt(m, i);
    }
  }

  /** The worker's other steps leave the tickets alone. */
  lemma WorkerLinked(m: Manager, maxQueued: int, step: Step)
    requires AllLinked(m) && (step.StartWorker? || step.Signal? || step.Wake? || step.Cleaned?)
    ensures AllLinked(AfterMove(m, maxQueued, Gated(step)))
  {
  }

  lemma NextLinked(m: Manager, maxQueued: int, w: nat)
    requires AllLinked(m) && QueueOk(m.gate)
    ensures AllLinked(AfterMove(m, maxQueued, Gated(Next(w))))
  {
    hide Live, QueueOk, Fifo;
    HeadWaits(m.gate);
  }

  lemma FinishLinked(m: Manager, maxQueued: int, w: nat)
    requires AllLinked(m) && WorkerOk(m.gate) && Allowed(m, Finish(w))
    ensures AllLinked(AfterMove(m, maxQueued, Gated(Finish(w))))
  {
    LinkedAt(m, m.gate.workers[w].id);
  }

  lemma LinkedKept(m: Manager, maxQueued: int, move: Move)
    requires AllLinked(m) && Inv(m.gate)
    ensures AllLinked(AfterMove(m, maxQueued, move))
  {
    hide AfterMove, AllLinked, Inv;
    match move
    case Gated(step) => if Allowed(m, step) { GatedLinked(m, maxQueued, step); } else { NotAllowed(m, maxQueued, step); }
    case Count(id) => StarterLinked(m, maxQueued, move);
    case UndoCount(id) => StarterLinked(m, maxQueued, move);
    case GiveUp(id) => StarterLinked(m, maxQueued, move);
    case Mark(id) => StarterLinked(m, maxQueued, move);
    case WatchUncount(id) => CleanupLinked(m, maxQueued, move);
    case WatchUnmark(id) => CleanupLinked(m, maxQueued, move);
    case JobUnmark(id) => CleanupLinked(m, maxQueued, move);
    case JobUncount(id) => CleanupLinked(m, maxQueued, move);
    case _ => TicketLinked(m, maxQueued, move);
  }

  lemma NotAllowed(m: Manager, maxQueued: int, step: Step)
    requires !Allowed(m, step)
    ensures AfterMove(m, maxQueued, Gated(step)) == m
  {
    hide ExecutionGate.Apply;
  }

  lemma StarterLinked(m: Manager, maxQueued: int, move: Move)
    requires AllLinked(m) && (move.Count? || move.UndoCount? || move.GiveUp? || move.Mark?)
    ensures AllLinked(AfterMove(m, maxQueued, move))
  {
    hide MarkActive;
  }

  lemma CleanupLinked(m: Manager, maxQueued: int, move: Move)
    requires AllLinked(m) && (move.WatchUncount? || move.WatchUnmark? || move.JobUnmark? || move.JobUncount?)
    ensures AllLinked(AfterMove(m, maxQueued, move))
  {
    hide UnmarkActive;
  }

  lemma TicketLinked(m: Manager, maxQueued: int, move: Move)
    requires AllLinked(m) && (move.Claim? || move.GiveBack? || move.Hand? || move.Watch?)
    ensures AllLinked(AfterMove(m, maxQueued, move))
  {
  }

  lemma GateKept(m: Manager, maxQueued: int, move: Move)
    requires Inv(m.gate)
    ensures Inv(AfterMove(m, maxQueued, move).gate)
  {
    hide Inv, ExecutionGate.Apply;
    match move
    case Claim(key) => InvKept(m.gate, Reserve(key));
    case GiveBack(id) => InvKept(m.gate, Release(id));
    case Hand(id) => InvKept(m.gate, Submit(id));
    case Watch(id) => InvKept(m.gate, Withdraw(id));
    case Gated(step) => InvKept(m.gate, step);
    case _ =>
  }

  /** Under every interleaving of callers, cancellations, the gate and its worker: each accepted
      execution is in the queue count and in its workflow's active count until exactly one of the job's
      deferred part and the queued-cancel path has taken it out of both, and never more than the
      limit are accepted. */
  lemma {:induction false} AccountsBalance(maxQueued: nat, moves: seq<Move>)
    ensures AccountsOk(Run(maxQueued, moves), maxQueued)
  {
    hide AfterMove, Inv, AllLinked, CountersOk;
    if |moves| == 0 {
      EmptyAccounts(maxQueued);
    } else {
      var (m, move) := (Run(maxQueued, moves[..|moves| - 1]), moves[|moves| - 1]);
      AccountsBalance(maxQueued, moves[..|moves| - 1]);
      GateKept(m, maxQueued, move);
      LinkedKept(m, maxQueued, move);
      CountersKept(m, maxQueued, move);
    }
  }

  lemma EmptyAccounts(maxQueued: nat)
    ensures AccountsOk(EMPTY, maxQueued)
  {
    InitialInv();
  }

  /** An execution that is neither refused nor finished. */
  predicate Unfinished(m: Manager, id: nat) {
    id < |m.execs| && id < |m.gate.tickets| && At(m, id, Submitted)
    && (InPhase(m.gate, id, Waiting) || InPhase(m.gate, id, Taken)) && m.execs[id].cleanup.NotRun?
  }

  /** A queued or running execution is counted and its workflow shows as active; the job's deferred
      part and the cancel path exclude each other; and when nobody is under way the counts are zero. */
  lemma CountsMeanUnfinished(maxQueued: nat, moves: seq<Move>, id: nat)
    ensures var m := Run(maxQueued, moves);
            && (Unfinished(m, id) ==> m.queued >= 1 && m.execs[id].key in m.active)
            && (id < |m.execs| ==> m.execs[id].watcher.Idle? || m.execs[id].cleanup.NotRun?)
            && ((forall i :: 0 <= i < |m.execs| ==> QueueShare(m.execs[i]) == 0) ==> m.queued == 0)
  {
    hide Run, Inv;
    var m := Run(maxQueued, moves);
    AccountsBalance(maxQueued, moves);
    forall i | 0 <= i < |m.execs| ensures 0 <= QueueShare(m.execs[i]) {
      LinkedAt(m, i);
      SharesAreSane(m.execs[i], m.gate.tickets[i]);
    }
    SumHolds(QueueShare, m.execs);
    if id < |m.execs| {
      LinkedAt(m, id);
      ActiveWhileShared(m, maxQueued, id);
    }
    if forall i :: 0 <= i < |m.execs| ==> QueueShare(m.execs[i]) == 0 {
      SumLe(QueueShare, _ => 0, m.execs);
      SumZero(m.execs);
    }
  }

  lemma {:induction false} SumZero(execs: seq<Exec>)
    ensures Sum(_ => 0, execs) == 0
  {
    if |execs| > 0 {
      SumZero(execs[..|execs| - 1]);
    }
  }

  lemma RunMore(maxQueued: int, moves: seq<Move>, move: Move)
    ensures Run(maxQueued, moves + [move]) == AfterMove(Run(maxQueued, moves), maxQueued, move)
  {
    assert (moves + [move])[..|moves|] == moves;
  }

  lemma RunNothing(maxQueued: int)
    ensures Run(maxQueued, []) == EMPTY
  {
  }

  lemma StartFresh(maxQueued: int, moves: seq<Move>, key: string) returns (more: seq<Move>)
    requires var m := Run(maxQueued, moves); |m.execs| == |m.gate.tickets| && key != "" && key !in m.gate.keys
    ensures var (m, h) := (Run(maxQueued, moves), Run(maxQueued, more));
            && h.queued == m.queued + 1 && h.gate.keys == m.gate.keys + {key} && |h.execs| == |h.gate.tickets|
            && h.execs == m.execs + [Exec(key, if m.queued + 1 > maxQueued then OverLimit else Counted, Idle, NotRun)]
  {
    hide Run;
    var id := |Run(maxQueued, moves).execs|;
    RunMore(maxQueued, moves, Claim(key));
    RunMore(maxQueued, moves + [Claim(key)], Count(id));
    more := moves + [Claim(key)] + [Count(id)];
  }

  // ---- when a start is turned away ----

  /** Counted over the limit and not yet taken back. */
  function Over(e: Exec): int { if e.starter.OverLimit? then 1 else 0 }

  lemma {:induction false} SumSplits(execs: seq<Exec>)
    requires forall i :: 0 <= i < |execs| ==> QueueShare(execs[i]) == Commitment(execs[i]) + Over(execs[i])
    ensures Sum(QueueShare, execs) == Sum(Commitment, execs) + Sum(Over, execs)
  {
    if |execs| > 0 {
      SumSplits(execs[..|execs| - 1]);
    }
  }

  lemma {:induction false} NoneOver(execs: seq<Exec>)
    requires forall i :: 0 <= i < |execs| ==> !execs[i].starter.OverLimit?
    ensures Sum(Over, execs) == 0
  {
    if |execs| > 0 {
      NoneOver(execs[..|execs| - 1]);
    }
  }

  /** Under every interleaving and for every limit, a start is turned away exactly if the accepted executions
      together with the refusals not yet taken back reach the limit. With no refusal under way that means: exactly
      if the limit is reached by accepted executions. */
  lemma RefusedExactly(maxQueued: nat, moves: seq<Move>, id: nat)
    requires At(Run(maxQueued, moves), id, Claimed)
    ensures var m := Run(maxQueued, moves);
            var h := AfterMove(m, maxQueued, Count(id));
            var committed := Sum(Commitment, m.execs);
            && (At(h, id, OverLimit) <==> committed + Sum(Over, m.execs) >= maxQueued)
            && (At(h, id, Counted) <==> !At(h, id, OverLimit))
            && committed <= maxQueued
            && ((forall i :: 0 <= i < |m.execs| ==> !m.execs[i].starter.OverLimit?) ==>
                  (At(h, id, OverLimit) <==> committed == maxQueued))
  {
    hide Run, Inv, Sum;
    var m := Run(maxQueued, moves);
    AccountsBalance(maxQueued, moves);
    forall i | 0 <= i < |m.execs| ensures QueueShare(m.execs[i]) == Commitment(m.execs[i]) + Over(m.execs[i]) {
      LinkedAt(m, i);
    }
    SumSplits(m.execs);
    if forall i :: 0 <= i < |m.execs| ==> !m.execs[i].starter.OverLimit? {
      NoneOver(m.execs);
    }
  }

  /** So the limit never lets too many in, but it can refuse too many: with limit 1, while one refusal is being
      taken back, another start is turned away although nothing is queued or running. */
  lemma RefusedWhileEmpty() returns (moves: seq<Move>)
    ensures var m := Run(1, moves); At(m, 2, OverLimit) && forall i :: 0 <= i < |m.execs| ==> Commitment(m.execs[i]) == 0
  {
    hide Run;
    RunNothing(1);
    moves := StartFresh(1, [], "a");
    moves := StartFresh(1, moves, "b");
    RunMore(1, moves, GiveUp(0));
    moves := moves + [GiveUp(0)];
    moves := StartFresh(1, moves, "c");
  }

  // ---- the shared counters ----

  /** The counters themselves; every method is one atomic update, and carries out the moves that `m` makes with it. */
  class Counters {
    const maxQueued: int
    var queued: int
    var active: map<string, int>

    /** The counters as they stand in a state of the model. */
    ghost predicate Shows(m: Manager)
      reads this
    {
      queued == m.queued && active == m.active
    }

    constructor (limit: int)
      ensures Shows(EMPTY) && maxQueued == if limit < 1 then 1 else limit
    {
      maxQueued := if limit < 1 then 1 else limit;
      queued, active := 0, map[];
    }

    /** Raises the count; tells whether the start is within the limit. */
    method Raise(ghost m: Manager, ghost id: nat) returns (within: bool)
      modifies this`queued
      ensures queued == old(queued) + 1
      ensures old(Shows(m)) && At(m, id, Claimed) ==>
                var h := AfterMove(m, maxQueued, Count(id));
                Shows(h) && At(h, id, if within then Counted else OverLimit)
    {
      queued := queued + 1;
      within := !(queued > maxQueued);
    }

    /** Lowers the count: after a refusal, a failed checkpoint, a queued cancellation or the end of the job. */
    method Lower(ghost m: Manager, ghost move: Move)
      modifies this`queued
      ensures queued == old(queued) - 1
      ensures old(Shows(m)) && AfterMove(m, maxQueued, move) != m
              && (move.UndoCount? || move.GiveUp? || move.WatchUncount? || move.JobUncount?) ==>
                Shows(AfterMove(m, maxQueued, move))
    {
      queued := queued - 1;
    }

    method Mark(key: string, ghost m: Manager, ghost id: nat)
      modifies this`active
      ensures active == MarkActive(old(active), key)
      ensures old(Shows(m)) && At(m, id, Counted) && m.execs[id].key == key ==>
                Shows(AfterMove(m, maxQueued, Move.Mark(id)))
    {
      var n := if key in active then active[key] else 0;
      active := active[key := n + 1];
    }

    /** Forgets one run of a workflow: after a queued cancellation or at the end of the job. */
    method Unmark(key: string, ghost m: Manager, ghost move: Move)
      modifies this`active
      ensures active == UnmarkActive(old(active), key)
      ensures old(Shows(m)) && AfterMove(m, maxQueued, move) != m
              && (move.WatchUnmark? || move.JobUnmark?) && m.execs[move.id].key == key ==>
                Shows(AfterMove(m, maxQueued, move))
    {
      if key !in active || active[key] <= 1 {
        active := active - {key};
      } else {
        active := active[key := active[key] - 1];
      }
    }
  }
}
