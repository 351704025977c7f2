/** A sweep over any number of crashes and restarts whose listings may fail, and differ from life to life. */
module SweepRestarts {
  import opened Ordering
  import opened DurableSweep
  import opened SweepHistory

  /** A life and what it lists. */
  datatype Restart = Restart(life: Life, services: seq<Service>)

  /** Passes one after another, each over its own listing. */
  function Restarts(row: Row, restarts: seq<Restart>): History
    decreases |restarts|
  {
    if |restarts| == 0 || !row.status.Running? then History([], row)
    else
      var r := restarts[0];
      var o := SweepFrom(r.life.pass, r.services, row.results);
      var p := o.events[..Min(r.life.cut, |o.events|)];
      var h := Restarts(Disk(p, row), restarts[1..]);
      History(p + h.events, h.row)
  }

  /** With one listing for all lives this is the sweep's history. */
  lemma {:induction false} LivesAreRestarts(services: seq<Service>, row: Row, lives: seq<Life>)
    ensures Lives(services, row, lives) == Restarts(row, Map(life => Restart(life, services), lives))
    decreases |lives|
  {
    hide SweepFrom, Disk;
    var restarts := Map(life => Restart(life, services), lives);
    if |lives| > 0 && row.status.Running? {
      var o := SweepFrom(lives[0].pass, services, row.results);
      LivesAreRestarts(services, Disk(o.events[..Min(lives[0].cut, |o.events|)], row), lives[1..]);
      assert restarts[1..] == Map(life => Restart(life, services), lives[1..]);
    }
  }

  /** A listing names no workflow twice, and no workflow ID is empty: the empty one stands for a service that could
      not be listed. */
  ghost predicate Named(plan: seq<Task>) {
    (forall i, j :: 0 <= i < j < |plan| ==> plan[i] != plan[j]) && forall t :: t in plan ==> t.workflow != ""
  }

  /** No workflow is recorded twice; that a service could not be listed may be, once a life. */
  ghost predicate Once(results: seq<StepResult>) {
    forall i, j :: 0 <= i < j < |results| && results[i].task == results[j].task ==> results[i].task.workflow == ""
  }

  /** What is recorded of the workflows still to come was recorded before the pass. */
  ghost predicate Ahead(plan: seq<Task>, done: set<string>, results: seq<StepResult>) {
    forall t :: t in plan && t in Tasks(results) ==> Key(t) in done
  }

  lemma NamedRest(items: seq<Item>)
    requires |items| > 0 && Named(Plan(items))
    ensures Named(Plan(items[1..]))
    ensures forall t :: t in Plan(items[1..]) ==> t in Plan(items)
    ensures items[0].Step? ==> items[0].task in Plan(items) && items[0].task !in Plan(items[1..])
  {
    var (plan, rest) := (Plan(items), Plan(items[1..]));
    if items[0].Step? {
      assert plan == [items[0].task] + rest;
      NamedTail(items[0].task, rest);
    } else {
      assert plan == [] + rest == rest;
    }
  }

  lemma NamedTail(t: Task, rest: seq<Task>)
    requires Named([t] + rest)
    ensures Named(rest) && t !in rest && t in [t] + rest && forall u :: u in rest ==> u in [t] + rest
  {
    var plan := [t] + rest;
    forall i | 0 <= i < |rest| ensures rest[i] == plan[i + 1] && plan[0] == t && rest[i] in plan {
    }
    forall i, j | 0 <= i < j < |rest| ensures rest[i] != rest[j] {
      assert plan[i + 1] != plan[j + 1];
    }
  }

  lemma OnceMore(results: seq<StepResult>, r: StepResult)
    requires Once(results) && (r.task in Tasks(results) ==> r.task.workflow == "")
    ensures Once(results + [r])
  {
    forall i | 0 <= i < |results| && results[i].task == r.task ensures r.task.workflow == "" {
      assert Tasks(results)[i] == r.task;
    }
  }

  /** What a turn does: nothing, or it records one result, of the item's workflow if that was not recorded before the
      pass, and starts at most that workflow. */
  lemma TurnRecords(p: Pass, done: set<string>, item: Item, st: State)
    ensures var turn := Look(p, done, item, st);
            || (turn.state.results == st.results && turn.events == [])
            || exists r :: turn.state.results == st.results + [r]
                 && (item.Step? ==> r.task == item.task && Key(item.task) !in done)
                 && (item.Visit? ==> r.task.workflow == "")
                 && (turn.events == Written(p, st.writes, Row(st.results + [r], Running))
                     || (item.Step? && turn.events == [Started(item.task)] + Written(p, st.writes, Row(st.results + [r], Running))))
  {
    hide Key;
    var turn := Look(p, done, item, st);
    if turn.state.results != st.results {
      var r := turn.state.results[|st.results|];
      assert turn.state.results == st.results + [r];
    }
  }

  /** One turn, whatever it lists. */
  lemma TurnGrows(p: Pass, done: set<string>, items: seq<Item>, st: State)
    requires |items| > 0 && Named(Plan(items)) && Ahead(Plan(items), done, st.results) && Once(st.results)
    ensures var (turn, rest) := (Look(p, done, items[0], st), Plan(items[1..]));
            && Grows(st.results, turn.events) && WritesWithin(turn.events, turn.state.results)
            && st.results <= turn.state.results && Once(turn.state.results)
            && Named(rest) && Ahead(rest, done, turn.state.results)
  {
    hide Key, ResultOf, Once, Tasks, Named, Look, Plan, Grows, WritesWithin;
    var turn := Look(p, done, items[0], st);
    NamedRest(items);
    TurnRecords(p, done, items[0], st);
    if turn.state.results != st.results {
      var r := turn.state.results[|st.results|];
      assert turn.state.results == st.results + [r];
      NoneUnnamed(items);
      TasksMore(st.results, r);
      OnceMore(st.results, r);
      WritesGrow(p, st, r, items[0], turn.events);
    } else {
      NothingGrows(st.results);
    }
  }

  lemma WritesGrow(p: Pass, st: State, r: StepResult, item: Item, events: seq<Event>)
    requires var wrote := Written(p, st.writes, Row(st.results + [r], Running));
             events == wrote
             || (item.Step? && item.task !in Tasks(st.results) && events == [Started(item.task)] + wrote)
    ensures Grows(st.results, events) && WritesWithin(events, st.results + [r])
  {
    hide Tasks;
  }

  lemma NoneUnnamed(items: seq<Item>)
    requires Named(Plan(items))
    ensures forall t :: t in Plan(items) ==> t.workflow != ""
  {
  }

  lemma {:induction false} SweepGrows(p: Pass, done: set<string>, items: seq<Item>, st: State)
    requires Named(Plan(items)) && Ahead(Plan(items), done, st.results) && Once(st.results)
    ensures var o := Sweep(p, done, items, st);
            Grows(st.results, o.events) && WritesWithin(o.events, o.row.results) && Once(o.row.results)
            && st.results <= o.row.results
    decreases |items|
  {
    hide Look, Tasks, Named, Ahead, Once, Grows, WritesWithin, Written;
    if |items| == 0 {
      LastGrows(p, st);
    } else {
      TurnGrows(p, done, items, st);
      var turn := Look(p, done, items[0], st);
      if turn.Go? {
        SweepGrows(p, done, items[1..], turn.state);
        var o := Sweep(p, done, items[1..], turn.state);
        GrowsJoin(st.results, turn.state.results, turn.events, o.events);
        WithinJoin(turn.events, turn.state.results, o.events, o.row.results);
      } else {
        LastGrows(p, turn.state);
        GrowsJoin(st.results, turn.state.results, turn.events, Written(p, turn.state.writes, Final(p, turn.state)));
        WithinJoin(turn.events, turn.state.results, Written(p, turn.state.writes, Final(p, turn.state)), turn.state.results);
      }
    }
  }

  lemma LastGrows(p: Pass, st: State)
    ensures var e := Written(p, st.writes, Final(p, st)); Grows(st.results, e) && WritesWithin(e, st.results)
    ensures Final(p, st).results == st.results
  {
    hide Tasks;
  }

  lemma WithinJoin(a: seq<Event>, mid: seq<StepResult>, b: seq<Event>, last: seq<StepResult>)
    requires WritesWithin(a, mid) && WritesWithin(b, last) && mid <= last
    ensures WritesWithin(a + b, last)
  {
  }

  /** What is on disk after some of the events. */
  lemma {:induction false} DiskGrows(row: Row, events: seq<Event>, last: seq<StepResult>)
    requires Grows(row.results, events) && WritesWithin(events, last) && row.results <= last
    ensures var d := Disk(events, row);
            row.results <= d.results <= last && WritesWithin(events, d.results)
  {
    hide Tasks;
    if |events| > 0 && !events[|events| - 1].Wrote? {
      DiskGrows(row, events[..|events| - 1], last);
    }
  }

  lemma GrowsPrefix(base: seq<StepResult>, events: seq<Event>, last: seq<StepResult>, k: nat)
    requires Grows(base, events) && WritesWithin(events, last) && k <= |events|
    ensures Grows(base, events[..k]) && WritesWithin(events[..k], last)
  {
    hide Tasks;
  }

  lemma OncePrefix(a: seq<StepResult>, b: seq<StepResult>)
    requires a <= b && Once(b)
    ensures Once(a)
  {
  }

  lemma AheadOfPass(plan: seq<Task>, results: seq<StepResult>)
    ensures Ahead(plan, Keys(results), results)
  {
    hide Key;
    forall t | t in plan && t in Tasks(results) ensures Key(t) in Keys(results) {
      var i :| 0 <= i < |Tasks(results)| && Tasks(results)[i] == t;
      assert results[i] in results;
    }
  }

  /** Over any number of crashes, lost writes and restarts, whatever each life lists and however its listing fails: what
      is recorded only grows, no workflow is recorded twice, and a workflow whose result was written is never started
      again. Service IDs may contain anything. */
  lemma {:induction false} NeverStartedAgain(row: Row, restarts: seq<Restart>)
    requires Once(row.results) && forall r :: r in restarts ==> Named(Plan(Items(r.services)))
    ensures var h := Restarts(row, restarts);
            Grows(row.results, h.events) && row.results <= h.row.results && Once(h.row.results)
    decreases |restarts|
  {
    hide Sweep, Plan, Items, Grows, Tasks, Once, Named, Ahead, WritesWithin, Disk, Keys;
    if |restarts| > 0 && row.status.Running? {
      var (life, services) := (restarts[0].life, restarts[0].services);
      var o := SweepFrom(life.pass, services, row.results);
      var k := Min(life.cut, |o.events|);
      var d := Disk(o.events[..k], row);
      assert restarts[0] in restarts;
      AheadOfPass(Plan(Items(services)), row.results);
      SweepGrows(life.pass, Keys(row.results), Items(services), State(row.results, false, 0, 0));
      GrowsPrefix(row.results, o.events, o.row.results, k);
      DiskGrows(row, o.events[..k], o.row.results);
      OncePrefix(d.results, o.row.results);
      NeverStartedAgain(d, restarts[1..]);
      GrowsJoin(row.results, d.results, o.events[..k], Restarts(d, restarts[1..]).events);
    } else {
      NothingGrows(row.results);
    }
  }

  lemma NothingGrows(base: seq<StepResult>)
    ensures Grows(base, []) && WritesWithin([], base)
  {
  }
}
