/** What a pass of the sweep records for each workflow and each failed listing, in which order it takes them, and how
    it ends. */
module SweepResults {
  import opened Ordering
  import opened DurableSweep
  import opened SweepHistory

  // ---- the results ----

  /** The listing has the workflow. */
  ghost predicate ListsTask(services: seq<Service>, t: Task) {
    exists s :: s in services && s.listError.None? && s.id == t.service && t.workflow in s.workflows
  }

  /** The status and the message say how the workflow turned out. */
  predicate Tells(r: StepResult, turnedOut: Result) {
    && (r.status.Success? <==> turnedOut.Ran?)
    && (r.status.Error? <==> turnedOut.Failure?)
    && (r.status.Skipped? <==> turnedOut.NoTrigger? || turnedOut.Duplicate?)
    && (turnedOut.Ran? ==> r.error == "")
    && (turnedOut.Failure? ==> r.error == turnedOut.error)
    && (turnedOut.NoTrigger? ==> r.error == "no trigger node found")
    && (turnedOut.Duplicate? ==> r.error == DUPLICATE)
  }

  /** A result for a listed workflow that was not recorded before the pass. */
  ghost predicate ForTask(p: Pass, services: seq<Service>, done: set<string>, r: StepResult) {
    ListsTask(services, r.task) && Key(r.task) !in done && Tells(r, p.turnsOut(r.task))
  }

  /** A result for a service that could not be listed. */
  ghost predicate ForListing(services: seq<Service>, r: StepResult) {
    exists s :: s in services && s.listError.Some? && r == StepResult(Task(s.id, ""), Error, s.listError.value)
  }

  /** The items of a listing are its failed services and its workflows. */
  ghost predicate FromListing(services: seq<Service>, item: Item) {
    match item
    case Step(t) => ListsTask(services, t)
    case Visit(id, None) => true
    case Visit(id, Some(e)) => exists s :: s in services && s.id == id && s.listError == Some(e)
  }

  lemma {:induction false} StepsList(service: string, workflows: seq<string>)
    ensures Steps(service, workflows) == seq(|workflows|, k requires 0 <= k < |workflows| => Step(Task(service, workflows[k])))
  {
    if |workflows| > 0 {
      StepsList(service, workflows[1..]);
    }
  }

  lemma {:induction false} ItemsList(services: seq<Service>)
    ensures forall item :: item in Items(services) ==> FromListing(services, item)
  {
    if |services| > 0 {
      var (s, rest) := (services[0], services[1..]);
      ItemsList(rest);
      StepsList(s.id, s.workflows);
      assert services == [s] + rest;
      forall item | item in Items(services) ensures FromListing(services, item) {
        if item in Items(rest) {
          ListedMore(s, rest, item);
        } else if item in Own(s) {
          var k :| 0 <= k < |Own(s)| && Own(s)[k] == item;
          assert s in services && s.workflows[k] in s.workflows;
        } else {
          assert item == Visit(s.id, s.listError) && s in services;
        }
      }
    }
  }

  lemma ListedMore(s: Service, rest: seq<Service>, item: Item)
    requires FromListing(rest, item)
    ensures FromListing([s] + rest, item)
  {
    match item
    case Step(t) =>
      var x :| x in rest && x.listError.None? && x.id == t.service && t.workflow in x.workflows;
      assert x in [s] + rest;
    case Visit(id, None) =>
    case Visit(id, Some(e)) =>
      var x :| x in rest && x.id == id && x.listError == Some(e);
      assert x in [s] + rest;
  }

  /** The results a stretch of the pass adds to `base`, and what it starts for them. */
  ghost predicate Adds(p: Pass, services: seq<Service>, done: set<string>, base: seq<StepResult>, rs: seq<StepResult>,
                       events: seq<Event>)
  {
    && base <= rs
    && (forall i :: |base| <= i < |rs| ==> ForTask(p, services, done, rs[i]) || ForListing(services, rs[i]))
    && (forall t :: Started(t) in events ==>
          exists i :: |base| <= i < |rs| && rs[i].task == t && !rs[i].status.Skipped? && ForTask(p, services, done, rs[i]))
    && (forall i :: |base| <= i < |rs| && rs[i].task.workflow != "" && !rs[i].status.Skipped? ==> Started(rs[i].task) in events)
  }

  /** What one turn adds. */
  lemma LookAdds(p: Pass, services: seq<Service>, done: set<string>, item: Item, st: State)
    requires FromListing(services, item)
    ensures Adds(p, services, done, st.results, Look(p, done, item, st).state.results, Look(p, done, item, st).events)
  {
    hide Key, ListsTask;
    var turn := Look(p, done, item, st);
    if turn.state.results != st.results {
      var r := turn.state.results[|st.results|];
      assert turn.state.results == st.results + [r];
      if item.Step? && !r.status.Skipped? {
        assert turn.events[0] == Started(item.task);
      }
    }
  }

  lemma AddsMore(p: Pass, services: seq<Service>, done: set<string>, base: seq<StepResult>, mid: seq<StepResult>,
                 rs: seq<StepResult>, a: seq<Event>, b: seq<Event>)
    requires Adds(p, services, done, base, mid, a) && Adds(p, services, done, mid, rs, b)
    ensures Adds(p, services, done, base, rs, a + b)
  {
    hide ForTask, ForListing;
    forall i | |base| <= i < |mid| ensures rs[i] == mid[i] {
    }
    forall t | Started(t) in a + b
      ensures exists i :: |base| <= i < |rs| && rs[i].task == t && !rs[i].status.Skipped? && ForTask(p, services, done, rs[i])
    {
      if Started(t) in a {
        var i :| |base| <= i < |mid| && mid[i].task == t && !mid[i].status.Skipped? && ForTask(p, services, done, mid[i]);
        assert rs[i] == mid[i];
      }
    }
  }

  lemma AddsNothing(p: Pass, services: seq<Service>, done: set<string>, rs: seq<StepResult>, n: nat, row: Row)
    ensures Adds(p, services, done, rs, rs, Written(p, n, row))
  {
  }

  lemma {:induction false} SweepAdds(p: Pass, services: seq<Service>, done: set<string>, items: seq<Item>, st: State)
    requires forall item :: item in items ==> FromListing(services, item)
    ensures var o := Sweep(p, done, items, st); Adds(p, services, done, st.results, o.row.results, o.events)
    decreases |items|
  {
    hide Look, Adds, FromListing, Written;
    if |items| == 0 {
      AddsNothing(p, services, done, st.results, st.writes, Final(p, st));
    } else {
      LookAdds(p, services, done, items[0], st);
      var turn := Look(p, done, items[0], st);
      if turn.Go? {
        SweepAdds(p, services, done, items[1..], turn.state);
        var o := Sweep(p, done, items[1..], turn.state);
        AddsMore(p, services, done, st.results, turn.state.results, o.row.results, turn.events, o.events);
      } else {
        var (rs, n) := (turn.state.results, turn.state.writes);
        AddsNothing(p, services, done, rs, n, Final(p, turn.state));
        AddsMore(p, services, done, st.results, rs, rs, turn.events, Written(p, n, Final(p, turn.state)));
      }
    }
  }

  /** Over every pass: each result added behind the resumed ones is for a listed workflow not recorded before, with the
      status and message of how it turned out, or for a service that could not be listed, with that error. Exactly the
      workflows that ran or failed were started. */
  lemma ResultsTell(p: Pass, services: seq<Service>, resume: seq<StepResult>)
    ensures var o := SweepFrom(p, services, resume);
            Adds(p, services, Keys(resume), resume, o.row.results, o.events)
  {
    hide Sweep, Items, Adds, FromListing;
    ItemsList(services);
    SweepAdds(p, services, Keys(resume), Items(services), State(resume, false, 0, 0));
  }

  // ---- the order ----

  lemma {:induction false} PlanConcat(a: seq<Item>, b: seq<Item>)
    ensures Plan(a + b) == Plan(a) + Plan(b)
  {
    if |a| == 0 {
      assert a + b == b;
    } else {
      assert (a + b)[1..] == a[1..] + b && (a + b)[0] == a[0];
      PlanConcat(a[1..], b);
    }
  }

  lemma {:induction false} ItemsConcat(a: seq<Service>, b: seq<Service>)
    ensures Items(a + b) == Items(a) + Items(b)
  {
    hide Own;
    if |a| == 0 {
      assert a + b == b;
    } else {
      assert (a + b)[1..] == a[1..] + b && (a + b)[0] == a[0];
      ItemsConcat(a[1..], b);
    }
  }

  lemma {:induction false} PlanOfSteps(service: string, workflows: seq<string>)
    ensures Plan(Steps(service, workflows))
         == seq(|workflows|, k requires 0 <= k < |workflows| => Task(service, workflows[k]))
  {
    if |workflows| > 0 {
      var items := Steps(service, workflows);
      assert items[1..] == Steps(service, workflows[1..]);
      PlanOfSteps(service, workflows[1..]);
    }
  }

  /** The plan goes service by service, and through each one's workflows in their order; a service that cannot be listed
      has none. */
  lemma PlanInOrder(a: seq<Service>, s: Service, b: seq<Service>)
    ensures Plan(Items(a + [s] + b))
         == Plan(Items(a))
            + (if s.listError.Some? then []
               else seq(|s.workflows|, k requires 0 <= k < |s.workflows| => Task(s.id, s.workflows[k])))
            + Plan(Items(b))
  {
    hide Plan, Items, Steps;
    ItemsConcat(a + [s], b);
    ItemsConcat(a, [s]);
    PlanConcat(Items(a + [s]), Items(b));
    PlanConcat(Items(a), Items([s]));
    PlanOfOne(s);
  }

  lemma PlanOfOne(s: Service)
    ensures Plan(Items([s])) == if s.listError.Some? then []
                                else seq(|s.workflows|, k requires 0 <= k < |s.workflows| => Task(s.id, s.workflows[k]))
  {
    hide Steps;
    NoItems();
    ItemsSplit([s]);
    assert [s][1..] == [];
    assert Items([s])[1..] == Own(s) + [] == Own(s);
    PlanOfSteps(s.id, s.workflows);
  }

  // ---- the end ----

  /** The item is a failure: a service that cannot be listed, or a workflow still to be run that fails. */
  predicate FailsAt(p: Pass, done: set<string>, item: Item) {
    match item
    case Visit(_, e) => e.Some?
    case Step(t) => Key(t) !in done && p.turnsOut(t).Failure?
  }

  /** The pass goes on behind this item. */
  predicate GoesOn(p: Pass, done: set<string>, item: Item, look: nat) {
    look < p.cancelAfter && !(p.stopOnFailure && FailsAt(p, done, item))
  }

  /** The pass goes through `n` items and no further. */
  ghost predicate GetsTo(p: Pass, done: set<string>, items: seq<Item>, looks: nat, n: nat) {
    && n <= |items|
    && (forall k :: 0 <= k < n ==> GoesOn(p, done, items[k], looks + k))
    && (n < |items| ==> !GoesOn(p, done, items[n], looks + n))
  }

  /** How a pass ends: after the items it gets to; cancelled exactly if it is by its last look at the context. */
  lemma {:induction false} SweepEnds(p: Pass, done: set<string>, items: seq<Item>, st: State) returns (n: nat)
    ensures GetsTo(p, done, items, st.looks, n)
    ensures var o := Sweep(p, done, items, st);
            && (o.complete <==> n == |items|)
            && (o.row.status.Cancelled? <==> p.cancelAfter <= st.looks + (if n < |items| then n + 1 else n))
            && !o.row.status.Running?
    decreases |items|
  {
    hide Look, GetsTo;
    n := 0;
    if |items| == 0 {
      NowhereToGet(p, done, st.looks);
      assert items == [];
    } else {
      LookGoesOn(p, done, items[0], st);
      GetsOneMore(p, done, items, st.looks, 0);
      if Look(p, done, items[0], st).Go? {
        var m := SweepEnds(p, done, items[1..], Look(p, done, items[0], st).state);
        GetsOneMore(p, done, items, st.looks, m);
        n := m + 1;
      }
    }
  }

  lemma LookGoesOn(p: Pass, done: set<string>, item: Item, st: State)
    ensures var turn := Look(p, done, item, st);
            && turn.state.looks == st.looks + 1
            && (turn.Go? <==> GoesOn(p, done, item, st.looks))
  {
    hide Key;
  }

  lemma NowhereToGet(p: Pass, done: set<string>, looks: nat)
    ensures GetsTo(p, done, [], looks, 0)
  {
  }

  lemma GetsOneMore(p: Pass, done: set<string>, items: seq<Item>, looks: nat, m: nat)
    requires |items| > 0
    ensures GoesOn(p, done, items[0], looks) && GetsTo(p, done, items[1..], looks + 1, m) ==>
              GetsTo(p, done, items, looks, m + 1)
    ensures !GoesOn(p, done, items[0], looks) ==> GetsTo(p, done, items, looks, 0)
  {
    hide GoesOn;
    var rest := items[1..];
    if GoesOn(p, done, items[0], looks) && GetsTo(p, done, rest, looks + 1, m) {
      forall k | 0 <= k < m + 1 ensures GoesOn(p, done, items[k], looks + k) {
        if k > 0 {
          assert items[k] == rest[k - 1] && GoesOn(p, done, rest[k - 1], looks + 1 + (k - 1));
        }
      }
    }
  }

  /** From the beginning of a pass: it is cancelled exactly if the context is by the time of the last look, and else it
      has failed exactly if it added an error. */
  lemma PassEnds(p: Pass, services: seq<Service>, resume: seq<StepResult>) returns (n: nat)
    ensures GetsTo(p, Keys(resume), Items(services), 0, n)
    ensures var (o, items) := (SweepFrom(p, services, resume), Items(services));
            && (o.complete <==> n == |items|)
            && o.row.status == (if p.cancelAfter <= (if n < |items| then n + 1 else n) then Cancelled
                                else if HasError(o.row.results, |resume|) then Failed else Succeeded)
  {
    hide Sweep, Items, GetsTo;
    var st := State(resume, false, 0, 0);
    n := SweepEnds(p, Keys(resume), Items(services), st);
    StatusOfLastPass(p, Keys(resume), Items(services), st);
  }
}
