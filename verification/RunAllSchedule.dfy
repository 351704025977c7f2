/** Run-All schedules: the once-a-minute tick, the forecast of the next fire, and the Repeat counter.
    Times are seconds; a zone is a fixed number of minutes ahead of them. */
module RunAllSchedule {
  import opened Ordering
  import opened CronFields
  import opened CronSearch

  datatype Schedule = Schedule(
    id: string, cron: string, interval: int, enabled: bool, runAll: bool,
    startAt: Option<nat>, endAt: Option<nat>, maxRuns: int, runCount: int)

  function Floor(t: nat): nat { t / 60 * 60 }

  function Ceil(t: nat): nat { if t % 60 == 0 then t else Floor(t) + 60 }

  // ---- the tick ----

  predicate InWindow(sc: Schedule, minute: nat) {
    && (sc.startAt.Some? ==> minute >= Floor(sc.startAt.value))
    && (sc.endAt.Some? ==> minute <= sc.endAt.value)
  }

  predicate BelowLimit(sc: Schedule) { sc.maxRuns <= 0 || sc.runCount < sc.maxRuns }

  /** Whether the tick of this moment fires the schedule. */
  predicate Due(sc: Schedule, lastRun: map<string, nat>, now: nat, zone: nat) {
    var minute := Floor(now);
    && sc.enabled && sc.runAll && InWindow(sc, minute) && BelowLimit(sc)
    && if sc.cron != "" then
         CronMatches(sc.cron, minute / 60 + zone) && !(sc.id in lastRun && lastRun[sc.id] >= minute)
       else
         sc.interval > 0 && (sc.id !in lastRun || now - lastRun[sc.id] >= sc.interval)
  }

  // ---- the forecast ----

  /** The earliest tick the forecast considers. */
  function Earliest(sc: Schedule, now: nat): nat {
    var lb := Floor(now) + 60;
    if sc.runAll && sc.startAt.Some? && Ceil(sc.startAt.value) > lb then Ceil(sc.startAt.value) else lb
  }

  function Raw(sc: Schedule, lastRun: map<string, nat>, now: nat, zone: nat): Option<int> {
    var lb := Earliest(sc, now);
    if sc.cron != "" then
      match FirstMatch(sc.cron, lb / 60 + zone, Limit(lb / 60 + zone))
      case Some(m) => Some((m - zone) * 60)
      case None => None
    else if sc.interval > 0 then
      Some(if sc.id in lastRun && Ceil(lastRun[sc.id] + sc.interval) > lb then Ceil(lastRun[sc.id] + sc.interval) else lb)
    else None
  }

  function NextFor(sc: Schedule, lastRun: map<string, nat>, now: nat, zone: nat): Option<int> {
    match Raw(sc, lastRun, now, zone)
    case Some(next) => if sc.runAll && sc.endAt.Some? && next > sc.endAt.value then None else Some(next)
    case None => None
  }

  /** Up to where a forecast of "never" is a promise: five years for a cron expression, for ever else. */
  ghost predicate WithinHorizon(sc: Schedule, now: nat, zone: nat, m: nat) {
    sc.cron == "" || m / 60 + zone < Limit(Earliest(sc, now) / 60 + zone)
  }

  /** The forecast is the first of the coming ticks that fires. */
  ghost predicate Agrees(sc: Schedule, lastRun: map<string, nat>, now: nat, zone: nat) {
    match NextFor(sc, lastRun, now, zone)
    case Some(n) =>
      && n > now && n % 60 == 0 && Due(sc, lastRun, n, zone)
      && (forall m: nat :: now < m < n && m % 60 == 0 ==> !Due(sc, lastRun, m, zone))
    case None =>
      forall m: nat :: now < m && m % 60 == 0 && WithinHorizon(sc, now, zone, m) ==> !Due(sc, lastRun, m, zone)
  }

  /** The start falls inside a minute whose tick is still to come and fires. */
  predicate FiresBeforeStart(sc: Schedule, lastRun: map<string, nat>, now: nat, zone: nat) {
    && sc.startAt.Some? && sc.startAt.value % 60 != 0 && Floor(sc.startAt.value) > now
    && Due(sc, lastRun, Floor(sc.startAt.value), zone)
  }

  /** A schedule the tick looks at, whose last run is not in the future. */
  predicate Ready(sc: Schedule, lastRun: map<string, nat>, now: nat) {
    sc.enabled && sc.runAll && BelowLimit(sc) && (sc.id in lastRun ==> lastRun[sc.id] <= now)
  }

  /** The tick of a moment, with `minute` the beginning of its minute, fires an enabled Run-All schedule with runs left
      exactly when the start comes before the minute's end, the minute begins no later than the end, and the rule
      fires: a cron expression that has not run in this minute, or an interval that has passed since the last run. */
  lemma DueReads(sc: Schedule, lastRun: map<string, nat>, now: nat, zone: nat, minute: nat)
    requires minute % 60 == 0 && minute <= now < minute + 60
    ensures Due(sc, lastRun, now, zone) <==>
            && sc.enabled && sc.runAll && (sc.maxRuns > 0 ==> sc.runCount < sc.maxRuns)
            && (sc.startAt.Some? ==> sc.startAt.value < minute + 60)
            && (sc.endAt.Some? ==> minute <= sc.endAt.value)
            && (sc.cron != "" ==>
                 CronMatches(sc.cron, minute / 60 + zone) && (sc.id in lastRun ==> lastRun[sc.id] < minute))
            && (sc.cron == "" ==> sc.interval > 0 && (sc.id in lastRun ==> now >= lastRun[sc.id] + sc.interval))
  {
    hide CronMatches;
    assert Floor(now) == minute;
    if sc.startAt.Some? {
      FloorCeil(sc.startAt.value, minute);
      FloorCeil(minute, Floor(sc.startAt.value));
    }
  }

  lemma FloorCeil(t: nat, m: nat)
    requires m % 60 == 0
    ensures Floor(m) == m && Ceil(m) == m && Floor(t) <= t <= Ceil(t) && Floor(t) % 60 == 0 && Ceil(t) % 60 == 0
    ensures m >= t <==> m >= Ceil(t)
    ensures m > t <==> m >= Floor(t) + 60
    ensures if t % 60 == 0 then Ceil(t) == Floor(t) == t else Ceil(t) == Floor(t) + 60
    ensures Floor(t) <= m < Ceil(t) ==> m == Floor(t)
  {
  }

  /** What decides whether a coming tick fires: the start's minute, the end and the rule itself. */
  predicate Fires(sc: Schedule, lastRun: map<string, nat>, m: nat, zone: nat) {
    if sc.cron != "" then CronMatches(sc.cron, m / 60 + zone)
    else sc.interval > 0 && (sc.id in lastRun ==> m >= Ceil(lastRun[sc.id] + sc.interval))
  }

  lemma ComingTick(sc: Schedule, lastRun: map<string, nat>, now: nat, zone: nat, m: nat)
    requires Ready(sc, lastRun, now) && now < m && m % 60 == 0
    ensures Due(sc, lastRun, m, zone) <==> InWindow(sc, m) && Fires(sc, lastRun, m, zone)
  {
    hide CronMatches, Floor, Ceil;
    FloorCeil(now, m);
    if sc.id in lastRun && sc.interval > 0 {
      FloorCeil(lastRun[sc.id] + sc.interval, m);
    }
  }

  /** Before any end, the forecast is the first tick from `Earliest` on whose rule fires. */
  lemma RawIsFirst(sc: Schedule, lastRun: map<string, nat>, now: nat, zone: nat)
    ensures match Raw(sc, lastRun, now, zone)
            case Some(n) =>
              && n >= Earliest(sc, now) && n % 60 == 0 && Fires(sc, lastRun, n, zone)
              && (forall m: nat :: Earliest(sc, now) <= m < n && m % 60 == 0 ==> !Fires(sc, lastRun, m, zone))
            case None =>
              forall m: nat :: Earliest(sc, now) <= m && m % 60 == 0 && WithinHorizon(sc, now, zone, m) ==>
                !Fires(sc, lastRun, m, zone)
  {
    hide CronMatches, Floor, Ceil, Limit, FirstMatch;
    var lb := Earliest(sc, now);
    assert lb % 60 == 0 by { EarliestAligned(sc, now); }
    if sc.cron != "" {
      var from := lb / 60 + zone;
      FirstMatchFacts(sc.cron, from, Limit(from));
      forall m: nat | lb <= m && m % 60 == 0 ensures (m / 60 + zone - zone) * 60 == m && m / 60 + zone >= from {
      }
    } else if sc.interval > 0 && sc.id in lastRun {
      FloorCeil(lastRun[sc.id] + sc.interval, lb);
    }
  }

  lemma EarliestAligned(sc: Schedule, now: nat)
    ensures Earliest(sc, now) % 60 == 0 && Earliest(sc, now) > now
  {
    FloorCeil(now, 0);
    if sc.startAt.Some? {
      FloorCeil(sc.startAt.value, 0);
    }
  }

  /** No coming tick before `Earliest` fires, except in the minute into which the start falls. */
  lemma NothingBeforeEarliest(sc: Schedule, lastRun: map<string, nat>, now: nat, zone: nat, m: nat)
    requires Ready(sc, lastRun, now) && now < m < Earliest(sc, now) && m % 60 == 0
    ensures Due(sc, lastRun, m, zone) ==> FiresBeforeStart(sc, lastRun, now, zone) && m == Floor(sc.startAt.value)
  {
    hide Floor, Ceil, Fires, Due;
    ComingTick(sc, lastRun, now, zone, m);
    FloorCeil(now, m);
    if sc.startAt.Some? {
      FloorCeil(sc.startAt.value, m);
    }
  }

  /** From `Earliest` on only the end keeps a tick from firing when the rule does. */
  lemma FromEarliest(sc: Schedule, lastRun: map<string, nat>, now: nat, zone: nat, m: nat)
    requires Ready(sc, lastRun, now) && Earliest(sc, now) <= m && m % 60 == 0
    ensures m > now
    ensures Due(sc, lastRun, m, zone) <==> Fires(sc, lastRun, m, zone) && (sc.endAt.Some? ==> m <= sc.endAt.value)
  {
    hide Floor, Ceil, Fires;
    EarliestAligned(sc, now);
    ComingTick(sc, lastRun, now, zone, m);
    if sc.startAt.Some? {
      FloorCeil(sc.startAt.value, m);
    }
  }

  lemma ForecastHolds(sc: Schedule, lastRun: map<string, nat>, now: nat, zone: nat)
    requires Ready(sc, lastRun, now) && !FiresBeforeStart(sc, lastRun, now, zone)
    ensures Agrees(sc, lastRun, now, zone)
  {
    hide Due, Fires, Earliest, Raw, Ready, FiresBeforeStart, WithinHorizon, Limit;
    RawIsFirst(sc, lastRun, now, zone);
    ReadyRunsAll(sc, lastRun, now);
    var (r, next) := (Raw(sc, lastRun, now, zone), NextFor(sc, lastRun, now, zone));
    if next.Some? {
      FromEarliest(sc, lastRun, now, zone, next.value);
    }
    forall m: nat | now < m && m % 60 == 0 && (if next.Some? then m < next.value else WithinHorizon(sc, now, zone, m))
      ensures !Due(sc, lastRun, m, zone)
    {
      if m < Earliest(sc, now) {
        NothingBeforeEarliest(sc, lastRun, now, zone, m);
      } else {
        FromEarliest(sc, lastRun, now, zone, m);
      }
    }
  }

  lemma ReadyRunsAll(sc: Schedule, lastRun: map<string, nat>, now: nat)
    requires Ready(sc, lastRun, now)
    ensures sc.runAll
  {
  }

  lemma ForecastFails(sc: Schedule, lastRun: map<string, nat>, now: nat, zone: nat)
    requires Ready(sc, lastRun, now) && FiresBeforeStart(sc, lastRun, now, zone)
    ensures !Agrees(sc, lastRun, now, zone)
  {
    hide Due, Fires, Raw, Floor, Ceil, Limit;
    var m := Floor(sc.startAt.value);
    RawIsFirst(sc, lastRun, now, zone);
    FloorCeil(sc.startAt.value, 0);
    FloorCeil(now, m);
    assert m < Earliest(sc, now);
    FiveYearsAhead(Earliest(sc, now) / 60 + zone);
    assert WithinHorizon(sc, now, zone, m);
  }

  lemma ReadyForecast(sc: Schedule, lastRun: map<string, nat>, now: nat, zone: nat)
    requires Ready(sc, lastRun, now)
    ensures Agrees(sc, lastRun, now, zone) <==> !FiresBeforeStart(sc, lastRun, now, zone)
  {
    hide Agrees, FiresBeforeStart, Ready;
    if FiresBeforeStart(sc, lastRun, now, zone) {
      ForecastFails(sc, lastRun, now, zone);
    } else {
      ForecastHolds(sc, lastRun, now, zone);
    }
  }

  /** A schedule that is disabled, used up, or a workflow's own trigger never fires by the tick, so its forecast
      is right exactly if it says "never". */
  lemma NeverDue(sc: Schedule, lastRun: map<string, nat>, now: nat, zone: nat)
    requires !(sc.enabled && sc.runAll && BelowLimit(sc))
    ensures forall m: nat :: !Due(sc, lastRun, m, zone)
    ensures Agrees(sc, lastRun, now, zone) <==> NextFor(sc, lastRun, now, zone).None?
  {
    hide CronMatches, FirstMatch, Limit, Floor, Ceil, NextFor, BelowLimit, WithinHorizon, InWindow;
  }

  /** Over all schedules, by cron expression or interval. For a Run-All schedule with runs left the forecast is the
      first coming tick that fires, and "never" means that none does, exactly unless the schedule starts inside a
      minute that fires: the tick rounds the start down, the forecast up. For a start on a full minute they always
      agree. Every other schedule the forecast answers for is never fired by the tick. */
  lemma ForecastIsExact(sc: Schedule, lastRun: map<string, nat>, now: nat, zone: nat)
    requires sc.id in lastRun ==> lastRun[sc.id] <= now
    ensures Agrees(sc, lastRun, now, zone) <==>
            if sc.enabled && sc.runAll && BelowLimit(sc) then !FiresBeforeStart(sc, lastRun, now, zone)
            else NextFor(sc, lastRun, now, zone).None?
  {
    hide Agrees, FiresBeforeStart, BelowLimit;
    if sc.enabled && sc.runAll && BelowLimit(sc) {
      ReadyForecast(sc, lastRun, now, zone);
    } else {
      NeverDue(sc, lastRun, now, zone);
    }
  }

  lemma RawInHorizon(sc: Schedule, lastRun: map<string, nat>, now: nat, zone: nat)
    ensures match Raw(sc, lastRun, now, zone)
            case Some(n) => n >= 0 && WithinHorizon(sc, now, zone, n)
            case None => true
  {
    hide Earliest, FirstMatch, Limit, CronMatches;
    var from := Earliest(sc, now) / 60 + zone;
    FirstMatchFacts(sc.cron, from, Limit(from));
  }

  /** A workflow's own trigger is forecast like any other schedule, by the first tick at which its rule fires, yet
      no tick ever fires it: the forecast is right only for a rule that does not fire before the horizon. */
  lemma TriggersOnlyForecast(sc: Schedule, lastRun: map<string, nat>, now: nat, zone: nat)
    requires !sc.runAll
    ensures Agrees(sc, lastRun, now, zone) <==>
            forall m: nat :: Earliest(sc, now) <= m && m % 60 == 0 && WithinHorizon(sc, now, zone, m) ==>
              !Fires(sc, lastRun, m, zone)
  {
    hide Agrees, Raw, Fires, Earliest, Limit;
    NeverDue(sc, lastRun, now, zone);
    RawIsFirst(sc, lastRun, now, zone);
    RawInHorizon(sc, lastRun, now, zone);
  }

  /** A schedule that starts at half past a minute: the tick of that minute fires it, the forecast says the next one. */
  lemma StartInsideMinute()
    ensures var sc := Schedule("a", "", 60, true, true, Some(90), None, 0, 0);
            Due(sc, map[], 60, 0) && NextFor(sc, map[], 0, 0) == Some(120) && !Agrees(sc, map[], 0, 0)
  {
    var sc := Schedule("a", "", 60, true, true, Some(90), None, 0, 0);
    hide Agrees;
    ForecastIsExact(sc, map[], 0, 0);
  }
}
