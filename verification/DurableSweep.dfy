/** The durable Run-All sweep: every service's workflows one after another, with the results written
    after each, and a restart that carries on behind the last results that were written. */
module DurableSweep {
  import opened Ordering

  const DUPLICATE := "already queued or running (e.g. resumed after a restart) -- not started again to avoid a duplicate run"

  datatype Task = Task(service: string, workflow: string)

  datatype StepStatus = Success | Error | Skipped

  datatype StepResult = StepResult(task: Task, status: StepStatus, error: string)

  datatype JobStatus = Running | Succeeded | Failed | Cancelled

  /** The persisted job. */
  datatype Row = Row(results: seq<StepResult>, status: JobStatus)

  /** What running one workflow comes to: without a trigger it is not run, and it is not run a second
      time beside a run that is already there. */
  datatype Result = NoTrigger | Ran | Failure(error: string) | Duplicate

  /** The sweep's way through the listing: a look at each service, then its workflows. */
  datatype Item = Visit(service: string, listError: Option<string>) | Step(task: Task)

  datatype Service = Service(id: string, workflows: seq<string>, listError: Option<string>)

  datatype Event = Started(task: Task) | Wrote(row: Row) | Lost

  /** One pass: what was recorded before it, how the workflows turn out, how many looks at the context
      it takes until it is cancelled, and which writes reach the database. */
  datatype Pass = Pass(stopOnFailure: bool, turnsOut: Task -> Result, cancelAfter: nat, written: nat -> bool)

  datatype State = State(results: seq<StepResult>, failed: bool, looks: nat, writes: nat)

  datatype Turn = Go(events: seq<Event>, state: State) | Halt(events: seq<Event>, state: State)

  /** All that a pass does, and whether it came to the end of the listing. */
  datatype Outcome = Outcome(events: seq<Event>, row: Row, complete: bool)

  function Key(t: Task): string { t.service + "/" + t.workflow }

  function Keys(results: seq<StepResult>): set<string> { set r | r in results :: Key(r.task) }

  function Tasks(results: seq<StepResult>): seq<Task> { Map((r: StepResult) => r.task, results) }

  function Steps(service: string, workflows: seq<string>): seq<Item> {
    if |workflows| == 0 then [] else [Step(Task(service, workflows[0]))] + Steps(service, workflows[1..])
  }

  function Own(s: Service): seq<Item> { if s.listError.Some? then [] else Steps(s.id, s.workflows) }

  function Items(services: seq<Service>): seq<Item> {
    if |services| == 0 then []
    else [Visit(services[0].id, services[0].listError)] + (Own(services[0]) + Items(services[1..]))
  }

  lemma ItemsSplit(services: seq<Service>)
    requires |services| > 0
    ensures var (s, items) := (services[0], Items(services));
            |items| > 0 && items[0] == Visit(s.id, s.listError) && items[1..] == Own(s) + Items(services[1..])
  {
    hide Own;
    var tail := Own(services[0]) + Items(services[1..]);
    assert ([Visit(services[0].id, services[0].listError)] + tail)[1..] == tail;
  }

  lemma NoItems()
    ensures Items([]) == []
  {
  }

  /** The service-then-workflow order. */
  function Plan(items: seq<Item>): seq<Task> {
    if |items| == 0 then []
    else (match items[0] case Step(t) => [t] case Visit(_, _) => []) + Plan(items[1..])
  }

  function Written(p: Pass, n: nat, row: Row): seq<Event> { [if p.written(n) then Wrote(row) else Lost] }

  /** A result is added and written; until the end the job is written as running. */
  function Recorded(p: Pass, st: State, r: StepResult): (seq<Event>, State) {
    var results := st.results + [r];
    (Written(p, st.writes, Row(results, Running)),
     State(results, st.failed || r.status.Error?, st.looks, st.writes + 1))
  }

  function ResultOf(t: Task, r: Result): StepResult {
    match r
    case NoTrigger => StepResult(t, Skipped, "no trigger node found")
    case Duplicate => StepResult(t, Skipped, DUPLICATE)
    case Failure(e) => StepResult(t, Error, e)
    case Ran => StepResult(t, Success, "")
  }

  /** One turn of the loops; `done` are the keys recorded before this pass. */
  function Look(p: Pass, done: set<string>, item: Item, st: State): Turn {
    var next := st.(looks := st.looks + 1);
    if st.looks >= p.cancelAfter then Halt([], next)
    else match item
      case Visit(_, None) => Go([], next)
      case Visit(id, Some(e)) =>
        var (events, after) := Recorded(p, next, StepResult(Task(id, ""), Error, e));
        if p.stopOnFailure then Halt(events, after) else Go(events, after)
      case Step(t) =>
        if Key(t) in done then Go([], next)
        else
          var r := p.turnsOut(t);
          var (events, after) := Recorded(p, next, ResultOf(t, r));
          var all := (if r.Ran? || r.Failure? then [Started(t)] else []) + events;
          if r.Failure? && p.stopOnFailure then Halt(all, after) else Go(all, after)
  }

  function Final(p: Pass, st: State): Row {
    Row(st.results, if st.looks >= p.cancelAfter then Cancelled else if st.failed then Failed else Succeeded)
  }

  function Sweep(p: Pass, done: set<string>, items: seq<Item>, st: State): Outcome {
    if |items| == 0 then Outcome(Written(p, st.writes, Final(p, st)), Final(p, st), true)
    else match Look(p, done, items[0], st)
      case Halt(events, after) => Outcome(events + Written(p, after.writes, Final(p, after)), Final(p, after), false)
      case Go(events, after) =>
        var o := Sweep(p, done, items[1..], after);
        o.(events := events + o.events)
  }

  /** A pass over the listing, carrying on from what was recorded. */
  function SweepFrom(p: Pass, services: seq<Service>, resume: seq<StepResult>): Outcome {
    Sweep(p, Keys(resume), Items(services), State(resume, false, 0, 0))
  }

  // ---- the object ----

  class Sweeper {
    /** Everything started and written, in order. */
    var journal: seq<Event>
    var results: seq<StepResult>
    var failed: bool
    var looks: nat
    var writes: nat

    constructor ()
      ensures journal == []
    {
      journal, results, failed, looks, writes := [], [], false, 0, 0;
    }

    ghost function St(): State
      reads this
    {
      State(results, failed, looks, writes)
    }

    method Persist(p: Pass, status: JobStatus)
      modifies this
      ensures journal == old(journal) + Written(p, old(writes), Row(results, status))
      ensures St() == old(St()).(writes := old(writes) + 1)
    {
      journal := journal + [if p.written(writes) then Wrote(Row(results, status)) else Lost];
      writes := writes + 1;
    }

    /** Whether the context is cancelled by now. */
    method IsCancelled(p: Pass) returns (c: bool)
      modifies this
      ensures c == (old(looks) >= p.cancelAfter)
      ensures journal == old(journal) && St() == old(St()).(looks := old(looks) + 1)
    {
      c := looks >= p.cancelAfter;
      looks := looks + 1;
    }

    /** One workflow of a service; tells whether the sweep goes on. */
    method RunStep(p: Pass, done: set<string>, t: Task) returns (on: bool)
      modifies this
      ensures var turn := Look(p, done, Step(t), old(St()));
              on == turn.Go? && journal == old(journal) + turn.events && St() == turn.state
    {
      var c := IsCancelled(p);
      if c {
        return false;
      }
      if Key(t) in done {
        return true;
      }
      var r := p.turnsOut(t);
      if r.NoTrigger? {
        results := results + [StepResult(t, Skipped, "no trigger node found")];
        Persist(p, Running);
        return true;
      }
      var step := StepResult(t, Success, "");
      match r {
        case Duplicate => step := StepResult(t, Skipped, DUPLICATE);
        case Failure(e) =>
          journal := journal + [Started(t)];
          step := StepResult(t, Error, e);
        case Ran =>
          journal := journal + [Started(t)];
      }
      results := results + [step];
      if step.status.Error? {
        failed := true;
      }
      Persist(p, Running);
      return !(step.status.Error? && p.stopOnFailure);
    }

    /** The look at a service, up to its listing; tells whether the sweep goes on. */
    method VisitService(p: Pass, done: set<string>, s: Service) returns (on: bool)
      modifies this
      ensures var turn := Look(p, done, Visit(s.id, s.listError), old(St()));
              on == turn.Go? && journal == old(journal) + turn.events && St() == turn.state
    {
      var c := IsCancelled(p);
      if c {
        return false;
      }
      if s.listError.Some? {
        results := results + [StepResult(Task(s.id, ""), Error, s.listError.value)];
        failed := true;
        Persist(p, Running);
        return !p.stopOnFailure;
      }
      return true;
    }

    /** The rest of the pass from here is `o`. */
    ghost predicate Heads(p: Pass, done: set<string>, items: seq<Item>, before: seq<Event>, o: Outcome)
      reads this
    {
      var rest := Sweep(p, done, items, St());
      journal + rest.events == before + o.events && rest.row == o.row
    }

    method RunSweep(p: Pass, services: seq<Service>, resume: seq<StepResult>) returns (row: Row)
      modifies this
      ensures var o := SweepFrom(p, services, resume);
              row == o.row && journal == old(journal) + o.events
    {
      hide Look, Keys, Steps, Items;
      NoItems();
      results, failed, looks, writes := resume, false, 0, 0;
      var done := Keys(resume);
      ghost var (o, before) := (SweepFrom(p, services, resume), journal);
      var on := true;
      var i := 0;
      assert services[0..] == services;
      while i < |services| && on
        invariant i <= |services|
        invariant on ==> Heads(p, done, Items(services[i..]), before, o)
        invariant !on ==> journal + Written(p, writes, Final(p, St())) == before + o.events && Final(p, St()) == o.row
      {
        var s := services[i];
        ghost var rest := Items(services[i + 1..]);
        assert services[i..][1..] == services[i + 1..];
        ItemsSplit(services[i..]);
        on := VisitService(p, done, s);
        if s.listError.Some? {
          assert Own(s) + rest == rest;
        }
        if on && s.listError.None? {
          on := RunWorkflows(p, done, s, rest, before, o);
        }
        i := i + 1;
      }
      var status := if failed then Failed else Succeeded;
      if looks >= p.cancelAfter {
        status := Cancelled;
      }
      row := Row(results, status);
      Persist(p, status);
    }

    method RunWorkflows(p: Pass, done: set<string>, s: Service, ghost rest: seq<Item>, ghost before: seq<Event>, ghost o: Outcome)
      returns (on: bool)
      requires Heads(p, done, Steps(s.id, s.workflows) + rest, before, o)
      modifies this
      ensures on ==> Heads(p, done, rest, before, o)
      ensures !on ==> journal + Written(p, writes, Final(p, St())) == before + o.events && Final(p, St()) == o.row
    {
      hide Look, Keys;
      var k := 0;
      on := true;
      assert s.workflows[0..] == s.workflows;
      while k < |s.workflows| && on
        invariant k <= |s.workflows|
        invariant on ==> Heads(p, done, Steps(s.id, s.workflows[k..]) + rest, before, o)
        invariant !on ==> journal + Written(p, writes, Final(p, St())) == before + o.events && Final(p, St()) == o.row
      {
        ghost var items := Steps(s.id, s.workflows[k..]) + rest;
        assert s.workflows[k..][1..] == s.workflows[k + 1..];
        assert items[1..] == Steps(s.id, s.workflows[k + 1..]) + rest;
        on := RunStep(p, done, Task(s.id, s.workflows[k]));
        k := k + 1;
      }
      assert on ==> Steps(s.id, s.workflows[k..]) + rest == rest;
    }
  }
}
