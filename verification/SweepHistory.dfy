/** A sweep over any number of crashes and restarts. */
module SweepHistory {
  import opened Ordering
  import opened DurableSweep

  /** What the job's row holds after the events: the last write that reached the database. */
  function Disk(events: seq<Event>, row: Row): Row {
    if |events| == 0 then row
    else if events[|events| - 1].Wrote? then events[|events| - 1].row
    else Disk(events[..|events| - 1], row)
  }

  function Min(a: nat, b: nat): nat { if a < b then a else b }

  /** A pass and after how many of its events the process dies; a pass may also live to its end. */
  datatype Life = Life(pass: Pass, cut: nat)

  datatype History = History(events: seq<Event>, row: Row)

  /** Passes one after another: each starts from the row the one before left, and none starts once the
      row says that the sweep is over. */
  function Lives(services: seq<Service>, row: Row, lives: seq<Life>): History
    decreases |lives|
  {
    if |lives| == 0 || !row.status.Running? then History([], row)
    else
      var o := SweepFrom(lives[0].pass, services, row.results);
      var p := o.events[..Min(lives[0].cut, |o.events|)];
      var h := Lives(services, Disk(p, row), lives[1..]);
      History(p + h.events, h.row)
  }

  // ---- keys ----

  ghost predicate NoSlash(s: string) { forall i :: 0 <= i < |s| ==> s[i] != '/' }

  /** Two workflows have one key only if they are the same, as long as no service's ID has a slash. */
  lemma KeysTellApart(a: Task, b: Task)
    requires NoSlash(a.service) && NoSlash(b.service) && Key(a) == Key(b)
    ensures a == b
  {
    var (x, y) := (Key(a), Key(b));
    assert x[|a.service|] == '/' && y[|b.service|] == '/';
    assert forall i :: 0 <= i < |a.service| ==> x[i] == a.service[i];
    assert forall i :: 0 <= i < |b.service| ==> y[i] == b.service[i];
    assert |a.service| == |b.service|;
    assert a.service == x[..|a.service|] && b.service == y[..|b.service|];
    assert a.workflow == x[|a.service| + 1..] && b.workflow == y[|b.service| + 1..];
  }

  /** The listing: every service can be listed, no workflow is listed twice, and IDs have no slash. */
  ghost predicate Orderly(items: seq<Item>) {
    && (forall i :: 0 <= i < |items| && items[i].Visit? ==> items[i].listError.None?)
    && (forall t :: t in Plan(items) ==> NoSlash(t.service))
    && Pairwise((a, b) => a != b, Plan(items))
  }

  // ---- one pass ----

  /** The results so far against the plan: everything recorded before, and everything passed. */
  ghost predicate UpTo(plan: seq<Task>, n: nat, before: nat, st: State) {
    before <= |plan| && n <= |plan| && Tasks(st.results) == plan[..if before < n then n else before]
  }

  /** The keys recorded before the pass are those of the first `n` tasks of the plan. */
  ghost predicate DoneIs(plan: seq<Task>, n: nat, done: set<string>) {
    n <= |plan| && forall i :: 0 <= i < |plan| ==> (Key(plan[i]) in done <==> i < n)
  }

  /** The rest of the listing has the rest of the plan. */
  ghost predicate Rest(plan: seq<Task>, before: nat, items: seq<Item>) {
    && before <= |plan| && Plan(items) == plan[before..]
    && forall i :: 0 <= i < |items| && items[i].Visit? ==> items[i].listError.None?
  }

  lemma TasksMore(results: seq<StepResult>, r: StepResult)
    ensures Tasks(results + [r]) == Tasks(results) + [r.task]
  {
  }

  /** One turn: where it leaves the results, what it starts and what it writes. */
  lemma TurnFacts(p: Pass, plan: seq<Task>, n: nat, before: nat, done: set<string>, items: seq<Item>, st: State)
    requires |items| > 0 && Rest(plan, before, items) && DoneIs(plan, n, done) && UpTo(plan, n, before, st)
    ensures var turn := Look(p, done, items[0], st);
            var next := if items[0].Step? then before + 1 else before;
            && Rest(plan, next, items[1..])
            && (turn.Go? ==> UpTo(plan, n, next, turn.state))
            && Tasks(turn.state.results) <= plan
            && st.results <= turn.state.results
            && (forall i :: 0 <= i < |turn.events| && turn.events[i].Started? ==>
                 i == 0 && n <= before < |plan| && turn.events[i].task == plan[before])
            && (forall i :: 0 <= i < |turn.events| && turn.events[i].Wrote? ==>
                 i == |turn.events| - 1 && turn.events[i].row == Row(turn.state.results, Running))
  {
    hide Key, ResultOf, NoSlash;
    var turn := Look(p, done, items[0], st);
    assert Plan(items) == plan[before..];
    if items[0].Step? {
      assert plan[before] == items[0].task;
      assert plan[before + 1..] == plan[before..][1..];
      if turn.state.results != st.results {
        ResultTask(items[0].task, p.turnsOut(items[0].task));
        TasksMore(st.results, ResultOf(items[0].task, p.turnsOut(items[0].task)));
        assert plan[..before + 1] == plan[..before] + [plan[before]];
        assert Tasks(turn.state.results) == plan[..before + 1];
      }
    }
  }

  lemma ResultTask(t: Task, r: Result)
    ensures ResultOf(t, r).task == t
  {
  }

  /** From the results `base` on only ever more results are written, and nothing starts whose result was recorded or
      written before. */
  ghost predicate Grows(base: seq<StepResult>, events: seq<Event>) {
    && (forall i :: 0 <= i < |events| && events[i].Wrote? ==> base <= events[i].row.results)
    && (forall i :: 0 <= i < |events| && events[i].Started? ==> events[i].task !in Tasks(base))
    && (forall i, j :: 0 <= i < j < |events| && events[i].Wrote? && events[j].Wrote? ==>
         events[i].row.results <= events[j].row.results)
    && (forall i, j :: 0 <= i < j < |events| && events[i].Wrote? && events[j].Started? ==>
         events[j].task !in Tasks(events[i].row.results))
  }

  /** The same, and what is written is always the head of the plan. */
  ghost predicate Sound(plan: seq<Task>, base: seq<StepResult>, events: seq<Event>) {
    && Grows(base, events)
    && (forall i :: 0 <= i < |events| && events[i].Wrote? ==> Tasks(events[i].row.results) <= plan)
    && (forall i :: 0 <= i < |events| && events[i].Started? ==> events[i].task in plan)
  }

  ghost predicate WritesWithin(events: seq<Event>, results: seq<StepResult>) {
    forall i :: 0 <= i < |events| && events[i].Wrote? ==> events[i].row.results <= results
  }

  lemma TasksGrow(a: seq<StepResult>, b: seq<StepResult>)
    requires a <= b
    ensures Tasks(a) <= Tasks(b) && forall t :: t in Tasks(a) ==> t in Tasks(b)
  {
    assert Tasks(a) == Tasks(b)[..|a|];
  }

  lemma GrowsJoin(base: seq<StepResult>, mid: seq<StepResult>, a: seq<Event>, b: seq<Event>)
    requires Grows(base, a) && Grows(mid, b) && base <= mid && WritesWithin(a, mid)
    ensures Grows(base, a + b)
  {
    hide Tasks;
    var e := a + b;
    TasksGrow(base, mid);
    forall i, j | 0 <= i < j < |e| && e[i].Wrote? && e[j].Wrote? ensures e[i].row.results <= e[j].row.results {
      if i < |a| <= j {
        assert e[i].row.results <= mid && mid <= e[j].row.results;
      }
    }
    forall i, j | 0 <= i < j < |e| && e[i].Wrote? && e[j].Started? ensures e[j].task !in Tasks(e[i].row.results) {
      if i < |a| <= j {
        TasksGrow(e[i].row.results, mid);
      }
    }
  }

  lemma SoundJoin(plan: seq<Task>, base: seq<StepResult>, mid: seq<StepResult>, a: seq<Event>, b: seq<Event>)
    requires Sound(plan, base, a) && Sound(plan, mid, b) && base <= mid && WritesWithin(a, mid)
    ensures Sound(plan, base, a + b)
  {
    hide Tasks, Grows, WritesWithin;
    GrowsJoin(base, mid, a, b);
  }

  lemma TurnIsSound(p: Pass, plan: seq<Task>, n: nat, before: nat, done: set<string>, items: seq<Item>, st: State)
    requires |items| > 0 && Rest(plan, before, items) && DoneIs(plan, n, done) && UpTo(plan, n, before, st)
    requires Pairwise((a, b) => a != b, plan)
    ensures var turn := Look(p, done, items[0], st);
            Sound(plan, st.results, turn.events) && WritesWithin(turn.events, turn.state.results)
  {
    hide Look, Tasks, Rest, DoneIs;
    TurnFacts(p, plan, n, before, done, items, st);
    if before < |plan| {
      assert plan[before] !in plan[..before];
      assert plan[before] in plan;
    }
  }

  lemma FinalIsSound(p: Pass, plan: seq<Task>, st: State)
    requires Tasks(st.results) <= plan
    ensures Sound(plan, st.results, Written(p, st.writes, Final(p, st)))
  {
    hide Tasks;
  }

  lemma UpToPrefix(plan: seq<Task>, n: nat, before: nat, st: State)
    requires UpTo(plan, n, before, st)
    ensures Tasks(st.results) <= plan
    ensures before == |plan| ==> Tasks(st.results) == plan
  {
    assert before == |plan| && n <= |plan| ==> plan[..before] == plan;
  }

  lemma {:induction false} SweepIsSound(p: Pass, plan: seq<Task>, n: nat, before: nat, done: set<string>, items: seq<Item>, st: State)
    requires Rest(plan, before, items) && DoneIs(plan, n, done) && UpTo(plan, n, before, st)
    requires Pairwise((a, b) => a != b, plan)
    ensures var o := Sweep(p, done, items, st);
            && Sound(plan, st.results, o.events)
            && Tasks(o.row.results) <= plan && st.results <= o.row.results
            && (o.complete ==> Tasks(o.row.results) == plan)
    decreases |items|
  {
    hide Look, Tasks, DoneIs, UpTo, Sound, WritesWithin, Pairwise, Written;
    UpToPrefix(plan, n, before, st);
    if |items| == 0 {
      FinalIsSound(p, plan, st);
    } else {
      hide Rest;
      TurnFacts(p, plan, n, before, done, items, st);
      TurnIsSound(p, plan, n, before, done, items, st);
      var turn := Look(p, done, items[0], st);
      if turn.Go? {
        var next := if items[0].Step? then before + 1 else before;
        SweepIsSound(p, plan, n, next, done, items[1..], turn.state);
        SoundJoin(plan, st.results, turn.state.results, turn.events, Sweep(p, done, items[1..], turn.state).events);
      } else {
        FinalIsSound(p, plan, turn.state);
        SoundJoin(plan, st.results, turn.state.results, turn.events, Written(p, turn.state.writes, Final(p, turn.state)));
      }
    }
  }

  // ---- every pass ----

  /** The job's row records the head of the plan. */
  ghost predicate RowOk(plan: seq<Task>, row: Row) { Tasks(row.results) <= plan }

  lemma {:induction false} DiskFacts(plan: seq<Task>, row: Row, events: seq<Event>)
    requires Sound(plan, row.results, events) && RowOk(plan, row)
    ensures var d := Disk(events, row);
            RowOk(plan, d) && row.results <= d.results && WritesWithin(events, d.results)
  {
    hide Tasks;
    if |events| > 0 && !events[|events| - 1].Wrote? {
      DiskFacts(plan, row, events[..|events| - 1]);
    }
  }

  lemma SoundPrefix(plan: seq<Task>, base: seq<StepResult>, events: seq<Event>, p: seq<Event>)
    requires Sound(plan, base, events) && p <= events
    ensures Sound(plan, base, p)
  {
    hide Tasks;
  }

  /** The keys of the recorded head of the plan are the keys the pass skips. */
  lemma KeysAreDone(plan: seq<Task>, results: seq<StepResult>)
    requires Tasks(results) <= plan && Pairwise((a, b) => a != b, plan) && forall t :: t in plan ==> NoSlash(t.service)
    ensures DoneIs(plan, |results|, Keys(results))
  {
    hide NoSlash, Key;
    forall i | 0 <= i < |plan| ensures Key(plan[i]) in Keys(results) <==> i < |results| {
      if i < |results| {
        assert results[i].task == Tasks(results)[i] == plan[i];
        assert results[i] in results;
      } else if Key(plan[i]) in Keys(results) {
        var r :| r in results && Key(r.task) == Key(plan[i]);
        var j :| 0 <= j < |results| && results[j] == r;
        assert r.task == Tasks(results)[j] == plan[j];
        assert plan[i] in plan && plan[j] in plan;
        KeysTellApart(plan[i], plan[j]);
      }
    }
  }

  lemma PassIsSound(p: Pass, services: seq<Service>, resume: seq<StepResult>)
    requires Orderly(Items(services)) && Tasks(resume) <= Plan(Items(services))
    ensures var (o, plan) := (SweepFrom(p, services, resume), Plan(Items(services)));
            && Sound(plan, resume, o.events)
            && Tasks(o.row.results) <= plan && resume <= o.row.results
            && (o.complete ==> Tasks(o.row.results) == plan)
  {
    hide Sweep, Plan, Items, DoneIs, Sound, NoSlash;
    var (items, plan) := (Items(services), Plan(Items(services)));
    KeysAreDone(plan, resume);
    assert |Tasks(resume)| == |resume|;
    assert plan[0..] == plan;
    SweepIsSound(p, plan, |resume|, 0, Keys(resume), items, State(resume, false, 0, 0));
  }

  /** Over any number of crashes, failed writes and restarts: what is recorded is always the head of the
      service-then-workflow order, each workflow once; and a workflow whose result was written is
      never started again. */
  lemma {:induction false} HistoryIsSound(services: seq<Service>, row: Row, lives: seq<Life>)
    requires Orderly(Items(services)) && RowOk(Plan(Items(services)), row)
    ensures var (h, plan) := (Lives(services, row, lives), Plan(Items(services)));
            Sound(plan, row.results, h.events) && RowOk(plan, h.row) && row.results <= h.row.results
    decreases |lives|
  {
    hide Sweep, Plan, Items, Sound, SweepFrom, Orderly, Tasks;
    var plan := Plan(Items(services));
    if |lives| > 0 && row.status.Running? {
      var o := SweepFrom(lives[0].pass, services, row.results);
      var p := o.events[..Min(lives[0].cut, |o.events|)];
      PassIsSound(lives[0].pass, services, row.results);
      SoundPrefix(plan, row.results, o.events, p);
      DiskFacts(plan, row, p);
      HistoryIsSound(services, Disk(p, row), lives[1..]);
      SoundJoin(plan, row.results, Disk(p, row).results, p, Lives(services, Disk(p, row), lives[1..]).events);
    } else {
      NothingIsSound(plan, row);
    }
  }

  lemma NothingIsSound(plan: seq<Task>, row: Row)
    ensures Sound(plan, row.results, [])
  {
  }

  /** A sweep's record never holds a workflow twice. */
  lemma RecordedOnce(services: seq<Service>, row: Row)
    requires Orderly(Items(services)) && RowOk(Plan(Items(services)), row)
    ensures Pairwise((a, b) => a != b, Tasks(row.results))
  {
    hide Plan, Items, NoSlash, Tasks;
    var plan := Plan(Items(services));
    assert Tasks(row.results) == plan[..|Tasks(row.results)|];
  }

  // ---- when a pass ends ----

  /** Nothing in the listing makes a sweep stop that is to stop on failure: neither a service that cannot be listed
      nor a workflow still to be run that fails. */
  ghost predicate Smooth(p: Pass, done: set<string>, items: seq<Item>) {
    && (forall i :: 0 <= i < |items| && items[i].Visit? ==> items[i].listError.None?)
    && (forall i :: 0 <= i < |items| && items[i].Step? && Key(items[i].task) !in done ==> !p.turnsOut(items[i].task).Failure?)
  }

  /** A pass comes to the end of the listing exactly when it is not cancelled before its last look and no
      failure stops it. */
  lemma {:induction false} CompleteExactly(p: Pass, done: set<string>, items: seq<Item>, st: State)
    ensures Sweep(p, done, items, st).complete <==>
            (|items| > 0 ==> st.looks + |items| <= p.cancelAfter) && (p.stopOnFailure ==> Smooth(p, done, items))
    decreases |items|
  {
    hide Key, ResultOf;
    if |items| > 0 {
      SmoothHead(p, done, items);
      var turn := Look(p, done, items[0], st);
      if turn.Go? {
        CompleteExactly(p, done, items[1..], turn.state);
      }
    }
  }

  lemma SmoothHead(p: Pass, done: set<string>, items: seq<Item>)
    requires |items| > 0
    ensures Smooth(p, done, items) <==> Smooth(p, done, [items[0]]) && Smooth(p, done, items[1..])
  {
    forall i | 0 <= i < |items[1..]| ensures items[1..][i] == items[i + 1] {
    }
    if Smooth(p, done, [items[0]]) && Smooth(p, done, items[1..]) {
      assert [items[0]][0] == items[0];
      forall i | 0 <= i < |items| ensures i > 0 ==> items[i] == items[1..][i - 1] {
      }
    }
  }

  /** The last event of a pass is its final write, if that reaches the database. */
  lemma {:induction false} EndsWithWrite(p: Pass, done: set<string>, items: seq<Item>, st: State)
    ensures var o := Sweep(p, done, items, st);
            && |o.events| > 0 && o.row.status != Running
            && (o.events[|o.events| - 1] == Wrote(o.row) || o.events[|o.events| - 1] == Lost)
    decreases |items|
  {
    hide Look;
    if |items| > 0 {
      var turn := Look(p, done, items[0], st);
      if turn.Go? {
        EndsWithWrite(p, done, items[1..], turn.state);
      }
    }
  }

  /** A pass that ends uncancelled and unstopped, and whose last write arrives, leaves every workflow
      recorded exactly once and the sweep over. */
  lemma EveryWorkflowOnce(p: Pass, services: seq<Service>, row: Row)
    requires Orderly(Items(services)) && RowOk(Plan(Items(services)), row)
    requires var o := SweepFrom(p, services, row.results); o.complete && |o.events| > 0 && o.events[|o.events| - 1] != Lost
    ensures var (o, plan) := (SweepFrom(p, services, row.results), Plan(Items(services)));
            && Disk(o.events, row) == o.row && o.row.status != Running
            && Tasks(o.row.results) == plan && Pairwise((a, b) => a != b, plan)
  {
    hide Sweep, Plan, Items, Tasks, NoSlash;
    PassIsSound(p, services, row.results);
    EndsWithWrite(p, Keys(row.results), Items(services), State(row.results, false, 0, 0));
  }

  // ---- what a restart forgets ----

  ghost predicate HasError(results: seq<StepResult>, from: nat) {
    exists i :: from <= i < |results| && results[i].status.Error?
  }

  /** The final status speaks of this pass only: a sweep that is not cancelled ends as failed exactly when
      one of the results added by the last pass is an error, whatever was recorded before it. */
  lemma {:induction false} StatusOfLastPass(p: Pass, done: set<string>, items: seq<Item>, st: State)
    ensures var o := Sweep(p, done, items, st);
            && st.results <= o.row.results
            && (!o.row.status.Cancelled? ==>
                 (o.row.status.Failed? <==> st.failed || HasError(o.row.results, |st.results|)))
    decreases |items|
  {
    hide Key, ResultOf, Written;
    if |items| > 0 {
      TurnStatus(p, done, items[0], st);
      var turn := Look(p, done, items[0], st);
      var o := Sweep(p, done, items, st);
      hide Look;
      if turn.Go? {
        StatusOfLastPass(p, done, items[1..], turn.state);
        ErrorsFrom(st.results, turn.state.results, o.row.results);
      }
    }
  }

  lemma TurnStatus(p: Pass, done: set<string>, item: Item, st: State)
    ensures var turn := Look(p, done, item, st);
            st.results <= turn.state.results && (turn.state.failed <==> st.failed || HasError(turn.state.results, |st.results|))
  {
    var after := Look(p, done, item, st).state.results;
    if after != st.results {
      assert after[|st.results|] == after[|after| - 1];
    }
  }

  lemma ErrorsFrom(a: seq<StepResult>, b: seq<StepResult>, c: seq<StepResult>)
    requires a <= b <= c
    ensures HasError(c, |a|) <==> HasError(b, |a|) || HasError(c, |b|)
  {
    if HasError(b, |a|) {
      var i :| |a| <= i < |b| && b[i].status.Error?;
      assert c[i].status.Error?;
    }
    if HasError(c, |a|) {
      var i :| |a| <= i < |c| && c[i].status.Error?;
      assert i < |b| ==> b[i].status.Error?;
    }
  }

  /** After a restart the sweep goes on behind the recorded results even if the last of them is a failure
      at which it was to stop. */
  lemma {:induction false} GoesOnBehind(p: Pass, plan: seq<Task>, n: nat, before: nat, done: set<string>, items: seq<Item>, st: State)
    requires Rest(plan, before, items) && DoneIs(plan, n, done) && before <= n < |plan|
    requires st.looks + |items| <= p.cancelAfter && (p.turnsOut(plan[n]).Ran? || p.turnsOut(plan[n]).Failure?)
    ensures Started(plan[n]) in Sweep(p, done, items, st).events
    decreases |items|
  {
    hide Key, ResultOf;
    assert Plan(items) == plan[before..];
    var turn := Look(p, done, items[0], st);
    assert items[0].Step? ==> items[0].task == plan[before];
    if items[0].Step? && before == n {
      assert turn.events[0] == Started(plan[n]);
      assert Started(plan[n]) in turn.events;
      assert Sweep(p, done, items, st).events[0] == Started(plan[n]);
    } else {
      RestOf(plan, before, items);
      GoesOnBehind(p, plan, n, if items[0].Step? then before + 1 else before, done, items[1..], turn.state);
      assert Sweep(p, done, items, st).events == turn.events + Sweep(p, done, items[1..], turn.state).events;
    }
  }

  lemma RestOf(plan: seq<Task>, before: nat, items: seq<Item>)
    requires Rest(plan, before, items) && |items| > 0
    ensures Rest(plan, if items[0].Step? then before + 1 else before, items[1..])
  {
    if items[0].Step? {
      assert plan[before + 1..] == plan[before..][1..];
    }
  }

  /** Whatever is recorded short of the plan, a failure at which to stop included, is carried on from. */
  lemma RestartGoesOn(p: Pass, services: seq<Service>, resume: seq<StepResult>)
    requires Orderly(Items(services)) && Tasks(resume) <= Plan(Items(services)) && |resume| < |Plan(Items(services))|
    requires p.cancelAfter >= |Items(services)| && p.turnsOut(Plan(Items(services))[|resume|]).Ran?
    ensures Started(Plan(Items(services))[|resume|]) in SweepFrom(p, services, resume).events
  {
    hide Sweep, Plan, Items, NoSlash, Keys;
    var (items, plan) := (Items(services), Plan(Items(services)));
    KeysAreDone(plan, resume);
    assert plan[0..] == plan;
    GoesOnBehind(p, plan, |resume|, 0, Keys(resume), items, State(resume, false, 0, 0));
  }

  /** Nor does the failure itself: when everything was recorded before the crash, the restarted sweep ends
      as a success whatever the recorded results say. */
  lemma FailureIsForgotten(p: Pass, services: seq<Service>, resume: seq<StepResult>)
    requires Orderly(Items(services)) && Tasks(resume) == Plan(Items(services)) && p.cancelAfter > |Items(services)|
    ensures SweepFrom(p, services, resume).row == Row(resume, Succeeded)
  {
    hide Plan, Items, NoSlash, Keys, Sweep;
    var (items, plan) := (Items(services), Plan(Items(services)));
    KeysAreDone(plan, resume);
    assert plan[0..] == plan;
    assert |plan| == |resume|;
    SkipsAll(p, plan, 0, Keys(resume), items, State(resume, false, 0, 0));
  }

  lemma {:induction false} SkipsAll(p: Pass, plan: seq<Task>, before: nat, done: set<string>, items: seq<Item>, st: State)
    requires Rest(plan, before, items) && DoneIs(plan, |plan|, done) && st.looks + |items| < p.cancelAfter
    ensures Sweep(p, done, items, st).row == Row(st.results, if st.failed then Failed else Succeeded)
    decreases |items|
  {
    hide Key;
    if |items| > 0 {
      assert Plan(items) == plan[before..];
      assert items[0].Step? ==> items[0].task == plan[before];
      RestOf(plan, before, items);
      SkipsAll(p, plan, if items[0].Step? then before + 1 else before, done, items[1..], Look(p, done, items[0], st).state);
    }
  }

  // ---- stop on failure ----

  /** Nothing is started after a workflow that fails. */
  ghost predicate StopsAtFailure(p: Pass, e: seq<Event>) {
    forall i, j :: 0 <= i < j < |e| && e[i].Started? && p.turnsOut(e[i].task).Failure? ==> !e[j].Started?
  }

  lemma {:induction false} NothingAfterFailure(p: Pass, done: set<string>, items: seq<Item>, st: State)
    requires p.stopOnFailure
    ensures StopsAtFailure(p, Sweep(p, done, items, st).events)
    decreases |items|
  {
    hide StopsAtFailure;
    if |items| == 0 {
      StopsWhen(p, [], Written(p, st.writes, Final(p, st)));
    } else {
      var turn := Look(p, done, items[0], st);
      LookStarts(p, done, items[0], st);
      hide Look;
      if turn.Go? {
        NothingAfterFailure(p, done, items[1..], turn.state);
        StopsAfter(p, turn.events, Sweep(p, done, items[1..], turn.state).events);
      } else {
        StopsWhen(p, turn.events, Written(p, turn.state.writes, Final(p, turn.state)));
      }
    }
  }

  lemma LookStarts(p: Pass, done: set<string>, item: Item, st: State)
    requires p.stopOnFailure
    ensures var turn := Look(p, done, item, st);
            && (forall i :: 0 < i < |turn.events| ==> !turn.events[i].Started?)
            && (turn.Go? ==> forall i :: 0 <= i < |turn.events| && turn.events[i].Started? ==>
                               !p.turnsOut(turn.events[i].task).Failure?)
  {
    hide Key, ResultOf;
  }

  lemma StopsWhen(p: Pass, a: seq<Event>, b: seq<Event>)
    requires (forall i :: 0 < i < |a| ==> !a[i].Started?) && |b| == 1 && !b[0].Started?
    ensures StopsAtFailure(p, a + b) && StopsAtFailure(p, b)
  {
  }

  lemma StopsAfter(p: Pass, a: seq<Event>, b: seq<Event>)
    requires StopsAtFailure(p, b)
    requires forall i :: 0 <= i < |a| && a[i].Started? ==> !p.turnsOut(a[i].task).Failure?
    ensures StopsAtFailure(p, a + b)
  {
  }

  /** What such a pass writes: rows of a running job without an error, at most one with its first error, and
      then the final row. */
  ghost predicate PassShape(e: seq<Event>, row: Row) {
    && |e| > 0 && (e[|e| - 1] == Wrote(row) || e[|e| - 1] == Lost) && !row.status.Running?
    && forall i :: 0 <= i < |e| - 1 && e[i].Wrote? ==>
         e[i].row.status.Running? && (HasError(e[i].row.results, 0) ==> i == |e| - 2)
  }

  lemma {:induction false} StoppingPass(p: Pass, done: set<string>, items: seq<Item>, st: State)
    requires p.stopOnFailure && !HasError(st.results, 0)
    ensures PassShape(Sweep(p, done, items, st).events, Sweep(p, done, items, st).row)
    decreases |items|
  {
    hide HasError;
    if |items| > 0 {
      LookWrites(p, done, items[0], st);
      var turn := Look(p, done, items[0], st);
      hide Look;
      if turn.Go? {
        StoppingPass(p, done, items[1..], turn.state);
        var rest := Sweep(p, done, items[1..], turn.state);
        ShapeAfter(turn.events, rest.events, rest.row);
      }
    }
  }

  lemma LookWrites(p: Pass, done: set<string>, item: Item, st: State)
    requires p.stopOnFailure && !HasError(st.results, 0)
    ensures var turn := Look(p, done, item, st);
            && (forall i :: 0 <= i < |turn.events| && turn.events[i].Wrote? ==>
                  i == |turn.events| - 1 && turn.events[i].row == Row(turn.state.results, Running))
            && (turn.Go? ==> !HasError(turn.state.results, 0))
  {
    hide Key;
  }

  lemma ShapeAfter(a: seq<Event>, e: seq<Event>, row: Row)
    requires PassShape(e, row)
    requires forall i :: 0 <= i < |a| && a[i].Wrote? ==> a[i].row.status.Running? && !HasError(a[i].row.results, 0)
    ensures PassShape(a + e, row)
  {
    hide HasError;
  }

  /** The process dies, or the final write is lost, between the write of the failure and the final row. */
  ghost predicate Window(e: seq<Event>, cut: nat) {
    && |e| >= 2 && e[|e| - 2].Wrote? && HasError(e[|e| - 2].row.results, 0)
    && (cut == |e| - 1 || (cut >= |e| && e[|e| - 1].Lost?))
  }

  /** The row is the last write, or what was there before. */
  lemma {:induction false} DiskIsLast(events: seq<Event>, row: Row)
    ensures (Disk(events, row) == row && forall i :: 0 <= i < |events| ==> !events[i].Wrote?)
            || exists i :: 0 <= i < |events| && events[i] == Wrote(Disk(events, row))
                           && forall j :: i < j < |events| ==> !events[j].Wrote?
  {
    if |events| > 0 && !events[|events| - 1].Wrote? {
      DiskIsLast(events[..|events| - 1], row);
    }
  }

  /** A job is left running with an error exactly by a pass that dies in the window. */
  lemma LeftRunning(e: seq<Event>, last: Row, row: Row, cut: nat)
    requires PassShape(e, last) && !HasError(row.results, 0)
    ensures var d := Disk(e[..Min(cut, |e|)], row);
            d.status.Running? && HasError(d.results, 0) <==> Window(e, cut)
  {
    hide HasError, Disk;
    DiskIsLast(e[..Min(cut, |e|)], row);
  }

  function NextRow(services: seq<Service>, row: Row, life: Life): Row {
    if !row.status.Running? then row
    else
      var e := SweepFrom(life.pass, services, row.results).events;
      Disk(e[..Min(life.cut, |e|)], row)
  }

  /** The row that the `k`-th life finds. */
  function RowBefore(services: seq<Service>, row: Row, lives: seq<Life>, k: nat): Row
    requires k <= |lives|
    decreases k
  {
    if k == 0 then row else RowBefore(services, NextRow(services, row, lives[0]), lives[1..], k - 1)
  }

  ghost predicate KilledInWindow(services: seq<Service>, row: Row, life: Life) {
    row.status.Running? && Window(SweepFrom(life.pass, services, row.results).events, life.cut)
  }

  ghost predicate StartsSomething(e: seq<Event>) { exists j :: 0 <= j < |e| && e[j].Started? }

  /** The stop is forgotten after the `k`-th life: it dies in the window, and a later one starts a workflow. */
  ghost predicate ForgottenAt(services: seq<Service>, row: Row, lives: seq<Life>, k: nat)
    requires k < |lives|
  {
    && KilledInWindow(services, RowBefore(services, row, lives, k), lives[k])
    && StartsSomething(Lives(services, RowBefore(services, row, lives, k + 1), lives[k + 1..]).events)
  }

  /** A workflow is started although a failure is already recorded. */
  ghost predicate StartedAfterFailure(e: seq<Event>) {
    exists i, j :: 0 <= i < j < |e| && e[i].Wrote? && HasError(e[i].row.results, 0) && e[j].Started?
  }

  /** What later lives start is part of what the lives from now on start. */
  lemma {:induction false} LaterStarts(services: seq<Service>, row: Row, lives: seq<Life>, k: nat)
    requires k <= |lives| && StartsSomething(Lives(services, RowBefore(services, row, lives, k), lives[k..]).events)
    ensures row.status.Running? && StartsSomething(Lives(services, row, lives).events)
    decreases k
  {
    hide SweepFrom, Disk;
    if k == 0 {
      assert lives[0..] == lives;
    } else {
      assert lives[1..][k - 1..] == lives[k..];
      LaterStarts(services, NextRow(services, row, lives[0]), lives[1..], k - 1);
      var (rest, e) := (Lives(services, NextRow(services, row, lives[0]), lives[1..]).events, Lives(services, row, lives).events);
      var j :| 0 <= j < |rest| && rest[j].Started?;
      assert e[|e| - |rest| + j] == rest[j];
    }
  }

  /** A life and the later ones: where a start after a recorded failure can come from. */
  lemma JoinedFailures(a: seq<Event>, b: seq<Event>)
    ensures StartedAfterFailure(a + b) <==>
            || StartedAfterFailure(a) || StartedAfterFailure(b)
            || (StartsSomething(b) && exists i :: 0 <= i < |a| && a[i].Wrote? && HasError(a[i].row.results, 0))
  {
    hide HasError;
    var c := a + b;
    if StartedAfterFailure(c) {
      var i, j :| 0 <= i < j < |c| && c[i].Wrote? && HasError(c[i].row.results, 0) && c[j].Started?;
      if i < |a| <= j {
        assert b[j - |a|].Started? && a[i] == c[i];
      } else if i >= |a| {
        assert b[i - |a|] == c[i] && b[j - |a|] == c[j];
      } else {
        assert a[i] == c[i] && a[j] == c[j];
      }
    }
    if StartedAfterFailure(a) {
      var i, j :| 0 <= i < j < |a| && a[i].Wrote? && HasError(a[i].row.results, 0) && a[j].Started?;
      assert c[i] == a[i] && c[j] == a[j];
    }
    if StartedAfterFailure(b) {
      var i, j :| 0 <= i < j < |b| && b[i].Wrote? && HasError(b[i].row.results, 0) && b[j].Started?;
      assert c[|a| + i] == b[i] && c[|a| + j] == b[j];
    }
    if StartsSomething(b) && exists i :: 0 <= i < |a| && a[i].Wrote? && HasError(a[i].row.results, 0) {
      var i :| 0 <= i < |a| && a[i].Wrote? && HasError(a[i].row.results, 0);
      var j :| 0 <= j < |b| && b[j].Started?;
      assert c[i] == a[i] && c[|a| + j] == b[j];
    }
  }

  /** One life: by itself it starts nothing after a failure, and leaves a row that later lives go on from. */
  lemma OneLife(e: seq<Event>, last: Row, row: Row, cut: nat)
    requires PassShape(e, last) && !HasError(row.results, 0)
    ensures var (a, d) := (e[..Min(cut, |e|)], Disk(e[..Min(cut, |e|)], row));
            && !StartedAfterFailure(a)
            && (d.status.Running? ==>
                  (Window(e, cut) <==> exists i :: 0 <= i < |a| && a[i].Wrote? && HasError(a[i].row.results, 0)))
            && (d.status.Running? && !Window(e, cut) ==> !HasError(d.results, 0))
            && (Window(e, cut) ==> d.status.Running?)
  {
    hide HasError, Disk;
    LeftRunning(e, last, row, cut);
    var a := e[..Min(cut, |e|)];
    DiskIsLast(a, row);
    if Window(e, cut) {
      assert a[|e| - 2] == e[|e| - 2];
    }
  }

  ghost predicate Forgotten(services: seq<Service>, row: Row, lives: seq<Life>) {
    exists k :: 0 <= k < |lives| && ForgottenAt(services, row, lives, k)
  }

  lemma ShiftAt(services: seq<Service>, row: Row, lives: seq<Life>, k: nat)
    requires 0 < k < |lives|
    ensures ForgottenAt(services, row, lives, k)
            <==> ForgottenAt(services, NextRow(services, row, lives[0]), lives[1..], k - 1)
  {
    hide KilledInWindow, Lives, NextRow;
    assert lives[1..][k..] == lives[k + 1..];
  }

  lemma ShiftForgotten(services: seq<Service>, row: Row, lives: seq<Life>)
    requires |lives| > 0
    ensures Forgotten(services, row, lives)
            <==> ForgottenAt(services, row, lives, 0) || Forgotten(services, NextRow(services, row, lives[0]), lives[1..])
  {
    hide ForgottenAt, NextRow;
    if Forgotten(services, row, lives) {
      var k :| 0 <= k < |lives| && ForgottenAt(services, row, lives, k);
      if k > 0 {
        ShiftAt(services, row, lives, k);
      }
    }
    if Forgotten(services, NextRow(services, row, lives[0]), lives[1..]) {
      var k :| 0 <= k < |lives[1..]| && ForgottenAt(services, NextRow(services, row, lives[0]), lives[1..], k);
      ShiftAt(services, row, lives, k + 1);
    }
  }

  /** The first life forgets the stop exactly if it dies in the window and a later one starts something. */
  lemma FirstForgets(services: seq<Service>, row: Row, lives: seq<Life>)
    requires |lives| > 0
    ensures ForgottenAt(services, row, lives, 0) <==>
            KilledInWindow(services, row, lives[0])
            && StartsSomething(Lives(services, NextRow(services, row, lives[0]), lives[1..]).events)
  {
    hide KilledInWindow, Lives, NextRow;
    assert RowBefore(services, row, lives, 1) == NextRow(services, row, lives[0]);
  }

  lemma ForgottenStarts(services: seq<Service>, row: Row, lives: seq<Life>)
    requires Forgotten(services, row, lives)
    ensures row.status.Running? && StartsSomething(Lives(services, row, lives).events)
  {
    hide KilledInWindow, Lives, RowBefore, StartsSomething;
    var k :| 0 <= k < |lives| && ForgottenAt(services, row, lives, k);
    LaterStarts(services, row, lives, k + 1);
  }

  /** Over any number of crashes, lost writes and restarts of a sweep that is to stop on failure: a workflow is
      started after a recorded failure exactly if some life ends between the write of the failure and the final
      row, and a later one gets to start a workflow. */
  lemma {:induction false} StopForgottenExactly(services: seq<Service>, row: Row, lives: seq<Life>)
    requires !HasError(row.results, 0) && forall life :: life in lives ==> life.pass.stopOnFailure
    ensures StartedAfterFailure(Lives(services, row, lives).events) <==> Forgotten(services, row, lives)
    decreases |lives|
  {
    hide HasError, Disk, Sweep, Items, Keys, Window, StartedAfterFailure, PassShape, Forgotten, ForgottenAt;
    if |lives| > 0 && row.status.Running? {
      var (life, o) := (lives[0], SweepFrom(lives[0].pass, services, row.results));
      var (a, d) := (o.events[..Min(life.cut, |o.events|)], NextRow(services, row, lives[0]));
      var rest := Lives(services, d, lives[1..]).events;
      StoppingPass(life.pass, Keys(row.results), Items(services), State(row.results, false, 0, 0));
      OneLife(o.events, o.row, row, life.cut);
      JoinedFailures(a, rest);
      ShiftForgotten(services, row, lives);
      FirstForgets(services, row, lives);
      StartsAreStarts(rest);
      if Forgotten(services, d, lives[1..]) {
        ForgottenStarts(services, d, lives[1..]);
      }
      if d.status.Running? && !Window(o.events, life.cut) {
        StopForgottenExactly(services, d, lives[1..]);
      }
    } else {
      if Forgotten(services, row, lives) {
        ForgottenStarts(services, row, lives);
      }
      StartsAreStarts([]);
    }
  }

  lemma StartsAreStarts(e: seq<Event>)
    ensures StartedAfterFailure(e) ==> StartsSomething(e)
  {
  }

  // ---- an instance from the beginning ----

  /** The first workflow of the plan fails: it is started, its failure is written, and the pass ends. */
  lemma {:induction false} FirstFails(p: Pass, done: set<string>, items: seq<Item>, st: State)
    requires |Plan(items)| > 0 && p.stopOnFailure && st.looks + |items| <= p.cancelAfter && p.written(st.writes)
    requires forall i :: 0 <= i < |items| && items[i].Visit? ==> items[i].listError.None?
    requires Key(Plan(items)[0]) !in done && p.turnsOut(Plan(items)[0]).Failure?
    ensures var (t, e) := (Plan(items)[0], Sweep(p, done, items, st).events);
            |e| == 3 && e[0] == Started(t) && e[1] == Wrote(Row(st.results + [ResultOf(t, p.turnsOut(t))], Running))
    decreases |items|
  {
    hide Key, ResultOf;
    if items[0].Visit? {
      assert Plan(items) == Plan(items[1..]);
      FirstFails(p, done, items[1..], Look(p, done, items[0], st).state);
    }
  }

  lemma TwoLives(services: seq<Service>, row: Row, a: Life, b: Life)
    requires row.status.Running? && NextRow(services, row, a).status.Running?
    ensures var (x, y) := (SweepFrom(a.pass, services, row.results).events,
                           SweepFrom(b.pass, services, NextRow(services, row, a).results).events);
            Lives(services, row, [a, b]).events == x[..Min(a.cut, |x|)] + y[..Min(b.cut, |y|)]
  {
    hide SweepFrom, Disk;
    var d := NextRow(services, row, a);
    assert [a, b][1..] == [b] && [b][1..] == [];
    var y := SweepFrom(b.pass, services, d.results).events;
    assert Lives(services, d, [b]).events == y[..Min(b.cut, |y|)] + [];
  }

  /** From the very beginning: the first workflow fails, the process dies after the failure is written, and the
      restarted sweep starts the second one. */
  lemma StopIsForgotten(services: seq<Service>, p: Pass) returns (lives: seq<Life>)
    requires Orderly(Items(services)) && |Plan(Items(services))| >= 2
    requires p.stopOnFailure && p.cancelAfter >= |Items(services)| && p.written(0)
    requires p.turnsOut(Plan(Items(services))[0]).Failure? && p.turnsOut(Plan(Items(services))[1]).Ran?
    ensures forall life :: life in lives ==> life.pass == p
    ensures var e := Lives(services, Row([], Running), lives).events;
            && StartedAfterFailure(e) && Forgotten(services, Row([], Running), lives)
            && Started(Plan(Items(services))[1]) in e
  {
    hide Plan, Items, Disk, Lives, Forgotten, SweepFrom, NextRow, Orderly, ResultOf;
    var (plan, row) := (Plan(Items(services)), Row([], Running));
    var r := FirstDies(services, p);
    var (x, y) := (SweepFrom(p, services, []).events, SweepFrom(p, services, [r]).events);
    RestartGoesOn(p, services, [r]);
    lives := [Life(p, 2), Life(p, |y|)];
    TwoLives(services, row, lives[0], lives[1]);
    var e := Lives(services, row, lives).events;
    assert e == x[..2] + y;
    var j :| 0 <= j < |y| && y[j] == Started(plan[1]);
    assert e[1] == x[1] && e[2 + j] == y[j];
    assert [r][0].status.Error?;
    assert HasError(e[1].row.results, 0) && e[2 + j].Started?;
    StopForgottenExactly(services, row, lives);
  }

  /** The first life, and what it leaves. */
  lemma FirstDies(services: seq<Service>, p: Pass) returns (r: StepResult)
    requires Orderly(Items(services)) && |Plan(Items(services))| >= 2
    requires p.stopOnFailure && p.cancelAfter >= |Items(services)| && p.written(0)
    requires p.turnsOut(Plan(Items(services))[0]).Failure?
    ensures var x := SweepFrom(p, services, []).events;
            |x| >= 2 && x[1] == Wrote(Row([r], Running)) && r.status.Error? && Tasks([r]) <= Plan(Items(services))
    ensures NextRow(services, Row([], Running), Life(p, 2)) == Row([r], Running)
  {
    hide Sweep, Plan, Items, NoSlash, Keys, Disk, Pairwise;
    var (items, plan) := (Items(services), Plan(Items(services)));
    var x := SweepFrom(p, services, []).events;
    NothingDone(plan[0]);
    FirstFails(p, Keys([]), items, State([], false, 0, 0));
    r := ResultOf(plan[0], p.turnsOut(plan[0]));
    assert [] + [r] == [r];
    LastWrite(x[..2], Row([], Running));
    assert Tasks([r]) == plan[..1];
  }

  lemma NothingDone(t: Task)
    ensures Key(t) !in Keys([])
  {
  }

  lemma LastWrite(events: seq<Event>, row: Row)
    requires |events| > 0 && events[|events| - 1].Wrote?
    ensures Disk(events, row) == events[|events| - 1].row
  {
  }
}
