/**
 * The driver that chains the passes of a repair cycle
 * (src/storage/repairCycleDriver.ts). The `log` records what happened; everything the
 * driver promises is a statement about every log it can produce.
 */
module RepairDriver {
  import opened Common

  datatype Trigger = Startup | Schedule | Continuation | Manual

  /** `Owned` is a call of start; `Abandoned` the end of a cycle that failed too often. */
  datatype Fact = Owned | Stopped | Began(trigger: Trigger) | Succeeded(completed: bool) | Failed | Abandoned

  datatype Driver = Driver(active: bool, timer: bool, stopped: bool, failures: nat, log: seq<Fact>)

  datatype Event = Start | Tick | Request | TimerFires | PassSucceeds(completed: bool) | PassFails | Stop

  // ---------------------------------------------------------------- what a log says

  /** Whether a pass has begun and not settled. */
  predicate Running(log: seq<Fact>) {
    if log == [] then false
    else
      match log[|log| - 1]
      case Began(_) => true
      case Succeeded(_) => false
      case Failed => false
      case _ => Running(log[..|log| - 1])
  }

  predicate IsStopped(log: seq<Fact>) {
    if log == [] then true
    else if log[|log| - 1] == Stopped then true
    else if log[|log| - 1] == Owned then false
    else IsStopped(log[..|log| - 1])
  }

  /** A cycle was begun, and neither completed nor given up. */
  predicate Unfinished(log: seq<Fact>) {
    if log == [] then false
    else
      match log[|log| - 1]
      case Began(_) => true
      case Succeeded(completed) => !completed
      case Abandoned => false
      case _ => Unfinished(log[..|log| - 1])
  }

  /** Failed passes since the last success, or since a pass that was not a continuation began. */
  function ChainFailures(log: seq<Fact>): nat {
    if log == [] then 0
    else
      match log[|log| - 1]
      case Owned => 0
      case Succeeded(_) => 0
      case Began(trigger) => if trigger == Continuation then ChainFailures(log[..|log| - 1]) else 0
      case Failed => ChainFailures(log[..|log| - 1]) + 1
      case _ => ChainFailures(log[..|log| - 1])
  }

  /** No pass begins while another one runs or while the driver is stopped, and chains of failures are bounded. */
  ghost predicate Orderly(log: seq<Fact>, bound: nat) {
    forall i: nat :: i < |log| ==> OrderlyAt(log, i, bound)
  }

  predicate OrderlyAt(log: seq<Fact>, i: nat, bound: nat)
    requires i < |log|
  {
    (log[i].Began? ==> !Running(log[..i]) && !IsStopped(log[..i])) && ChainFailures(log[..i + 1]) <= bound
  }

  // ---------------------------------------------------------------- the steps

  function Noted(d: Driver, f: Fact): Driver { d.(log := d.log + [f]) }

  function Begun(d: Driver, trigger: Trigger): Driver {
    Noted(d.(active := true, failures := if trigger == Continuation then d.failures else 0), Began(trigger))
  }

  function Scheduled(d: Driver): Driver { if d.stopped then d else d.(timer := true) }

  function Automatic(d: Driver, trigger: Trigger): Driver {
    if d.stopped || (d.timer && trigger != Continuation) then d
    else if d.active then (if trigger == Continuation then Scheduled(d) else d)
    else Begun(d, trigger)
  }

  /** Timers fire only while armed, and only a running pass settles. */
  predicate Enabled(d: Driver, e: Event) {
    (e.TimerFires? ==> d.timer) && (e.PassSucceeds? || e.PassFails? ==> d.active)
  }

  function Handle(d: Driver, e: Event, limit: nat): Driver {
    match e
    case Start => Automatic(Noted(d, Owned).(stopped := false, failures := 0), Startup)
    case Tick => Automatic(d, Schedule)
    case Request => if d.stopped || d.active then d else Begun(d, Manual)
    case TimerFires => Automatic(d.(timer := false), Continuation)
    case PassSucceeds(completed) =>
      var s := Noted(d, Succeeded(completed)).(failures := 0);
      (if completed then s.(timer := false) else Scheduled(s)).(active := false)
    case PassFails =>
      var s := Noted(d, Failed).(failures := d.failures + 1);
      (if s.failures >= limit then Noted(s, Abandoned).(timer := false) else Scheduled(s)).(active := false)
    case Stop => Noted(d, Stopped).(stopped := true, timer := false)
  }

  class RepairCycleDriver {
    var active: bool
    var continuationTimer: bool
    var stopped: bool
    var consecutiveFailures: nat
    const limit: nat
    ghost var log: seq<Fact>

    ghost function State(): Driver
      reads this
    {
      Driver(active, continuationTimer, stopped, consecutiveFailures, log)
    }

    constructor (limit: nat)
      ensures this.limit == limit && State() == Driver(false, false, true, 0, [])
    {
      this.limit := limit;
      active, continuationTimer, stopped, consecutiveFailures, log := false, false, true, 0, [];
    }

    method OnStart()
      modifies this
      ensures State() == Handle(old(State()), Start, limit)
    {
      stopped := false;
      consecutiveFailures := 0;
      log := log + [Owned];
      RunAutomatic(Startup);
    }

    method TriggerSchedule()
      modifies this
      ensures State() == Handle(old(State()), Tick, limit)
    {
      RunAutomatic(Schedule);
    }

    /** @returns whether the request was accepted */
    method RunManual() returns (accepted: bool)
      modifies this
      ensures accepted == (!old(stopped) && !old(active))
      ensures State() == Handle(old(State()), Request, limit)
    {
      if stopped || active { return false; }
      Run(Manual);
      return true;
    }

    method OnTimer()
      modifies this
      ensures State() == Handle(old(State()), TimerFires, limit)
    {
      continuationTimer := false;
      RunAutomatic(Continuation);
    }

    method OnSuccess(cycleCompleted: bool)
      modifies this
      ensures State() == Handle(old(State()), PassSucceeds(cycleCompleted), limit)
    {
      log := log + [Succeeded(cycleCompleted)];
      consecutiveFailures := 0;
      if cycleCompleted {
        continuationTimer := false;
      } else {
        ScheduleContinuation();
      }
      active := false;
    }

    method OnFailure()
      modifies this
      ensures State() == Handle(old(State()), PassFails, limit)
    {
      log := log + [Failed];
      consecutiveFailures := consecutiveFailures + 1;
      if consecutiveFailures >= limit {
        continuationTimer := false;
        log := log + [Abandoned];
      } else {
        ScheduleContinuation();
      }
      active := false;
    }

    method OnStop()
      modifies this
      ensures State() == Handle(old(State()), Stop, limit)
    {
      stopped := true;
      continuationTimer := false;
      log := log + [Stopped];
    }

    method RunAutomatic(trigger: Trigger)
      modifies this
      ensures State() == Automatic(old(State()), trigger)
    {
      if stopped { return; }
      if continuationTimer && trigger != Continuation { return; }
      if active {
        if trigger == Continuation { ScheduleContinuation(); }
        return;
      }
      Run(trigger);
    }

    method Run(trigger: Trigger)
      modifies this
      ensures State() == Begun(old(State()), trigger)
    {
      if trigger != Continuation { consecutiveFailures := 0; }
      active := true;
      log := log + [Began(trigger)];
    }

    method ScheduleContinuation()
      modifies this
      ensures State() == Scheduled(old(State()))
    {
      if stopped || continuationTimer { return; }
      continuationTimer := true;
    }
  }

  // ---------------------------------------------------------------- what an event does, exactly

  predicate IsBegunBy(d: Driver, e: Event, trigger: Trigger) {
    && !d.active
    && match trigger
       case Startup => e == Start && !d.timer
       case Schedule => e == Tick && !d.stopped && !d.timer
       case Manual => e == Request && !d.stopped
       case Continuation => e == TimerFires && !d.stopped
  }

  function Facts(d: Driver, e: Event, limit: nat): seq<Fact> {
    match e
    case Start => [Owned] + if IsBegunBy(d, e, Startup) then [Began(Startup)] else []
    case Tick => if IsBegunBy(d, e, Schedule) then [Began(Schedule)] else []
    case Request => if IsBegunBy(d, e, Manual) then [Began(Manual)] else []
    case TimerFires => if IsBegunBy(d, e, Continuation) then [Began(Continuation)] else []
    case PassSucceeds(completed) => [Succeeded(completed)]
    case PassFails => [Failed] + if limit <= d.failures + 1 then [Abandoned] else []
    case Stop => [Stopped]
  }

  /**
   * What each event notes. A pass begins exactly when none runs and the driver is started or a
   * tick finds it started, with no timer armed, or a request or the timer finds it started. A
   * cycle is abandoned exactly by the failure that makes the chain as long as the limit.
   */
  lemma EventsNoteExactly(d: Driver, e: Event, limit: nat)
    ensures Handle(d, e, limit).log == d.log + Facts(d, e, limit)
  {
  }

  /** The timer is armed exactly by an unfinished pass of a started driver, and waits while a pass runs. */
  lemma ArmsExactly(d: Driver, e: Event, limit: nat)
    requires d.stopped ==> !d.timer
    ensures Handle(d, e, limit).timer <==>
      match e
      case PassSucceeds(completed) => !completed && !d.stopped
      case PassFails => d.failures + 1 < limit && !d.stopped
      case TimerFires => d.active && !d.stopped
      case Stop => false
      case _ => d.timer
  {
  }

  // ---------------------------------------------------------------- every run

  /** The fields agree with the log, and the log is orderly. */
  ghost predicate Inv(d: Driver, bound: nat) {
    && d.active == Running(d.log) && d.stopped == IsStopped(d.log) && d.failures == ChainFailures(d.log)
    && (d.stopped ==> !d.timer)
    && d.failures <= bound && (d.active || d.timer ==> d.failures < bound)
    && (Unfinished(d.log) && !d.stopped ==> d.active || d.timer)
    && Orderly(d.log, bound)
  }

  lemma NotedSays(d: Driver, f: Fact, bound: nat)
    requires Orderly(d.log, bound) && ChainFailures(d.log + [f]) <= bound
    requires f.Began? ==> !Running(d.log) && !IsStopped(d.log)
    ensures Orderly(Noted(d, f).log, bound)
  {
    var log := d.log + [f];
    forall i: nat | i < |log| ensures OrderlyAt(log, i, bound) {
      if i < |d.log| {
        assert OrderlyAt(d.log, i, bound);
        assert log[..i] == d.log[..i] && log[..i + 1] == d.log[..i + 1];
      } else {
        assert log[..i] == d.log && log[..i + 1] == log;
      }
    }
  }

  /** What the log says after one more fact. */
  lemma OneMoreFact(log: seq<Fact>, f: Fact)
    ensures (log + [f])[..|log|] == log
    ensures Running(log + [f]) == (f.Began? || (Running(log) && !f.Succeeded? && !f.Failed?))
    ensures IsStopped(log + [f]) == (f.Stopped? || (IsStopped(log) && !f.Owned?))
    ensures ChainFailures(log + [f]) ==
      if f.Owned? || f.Succeeded? || (f.Began? && f.trigger != Continuation) then 0
      else if f.Failed? then ChainFailures(log) + 1 else ChainFailures(log)
    ensures Unfinished(log + [f]) ==
      (f.Began? || (f.Succeeded? && !f.completed) || (Unfinished(log) && (f.Owned? || f.Stopped? || f.Failed?)))
  {
    assert (log + [f])[..|log|] == log;
  }

  lemma BegunKeepsInv(d: Driver, trigger: Trigger, bound: nat)
    requires d.active == Running(d.log) && d.stopped == IsStopped(d.log) && d.failures == ChainFailures(d.log)
    requires !d.stopped && !d.active && Orderly(d.log, bound) && bound > 0
    requires d.failures < bound || (trigger != Continuation && d.failures <= bound)
    ensures Inv(Begun(d, trigger), bound)
  {
    OneMoreFact(d.log, Began(trigger));
    NotedSays(d, Began(trigger), bound);
  }

  /**
   * Over every sequence of starts, ticks, requests, timers, settlements and stops: at most
   * one pass is unsettled, none begins while stopped, a cycle that is neither completed nor
   * abandoned nor stopped has an active pass or an armed timer, and a chain of failures
   * never exceeds the limit.
   */
  lemma StepKeepsInv(d: Driver, e: Event, limit: nat)
    requires Inv(d, Max(1, limit)) && Enabled(d, e)
    ensures Inv(Handle(d, e, limit), Max(1, limit))
  {
    var bound := Max(1, limit);
    match e {
      case Start =>
        OneMoreFact(d.log, Owned);
        NotedSays(d, Owned, bound);
        var s := Noted(d, Owned).(stopped := false, failures := 0);
        if !s.timer && !s.active { BegunKeepsInv(s, Startup, bound); }
      case Tick => if !d.stopped && !d.timer && !d.active { BegunKeepsInv(d, Schedule, bound); }
      case Request => if !d.stopped && !d.active { BegunKeepsInv(d, Manual, bound); }
      case TimerFires => if !d.active { BegunKeepsInv(d.(timer := false), Continuation, bound); }
      case PassSucceeds(completed) =>
        OneMoreFact(d.log, Succeeded(completed));
        NotedSays(d, Succeeded(completed), bound);
      case PassFails =>
        OneMoreFact(d.log, Failed);
        NotedSays(d, Failed, bound);
        OneMoreFact(d.log + [Failed], Abandoned);
        NotedSays(Noted(d, Failed), Abandoned, bound);
      case Stop =>
        OneMoreFact(d.log, Stopped);
        NotedSays(d, Stopped, bound);
    }
  }

  ghost predicate Run(ds: seq<Driver>, es: seq<Event>, limit: nat) {
    && |ds| == |es| + 1 && ds[0] == Driver(false, false, true, 0, [])
    && forall i :: 0 <= i < |es| ==> Enabled(ds[i], es[i]) && ds[i + 1] == Handle(ds[i], es[i], limit)
  }

  lemma {:induction false} EveryRunIsOrderly(ds: seq<Driver>, es: seq<Event>, limit: nat, k: nat)
    requires Run(ds, es, limit) && k <= |es|
    ensures Inv(ds[k], Max(1, limit))
  {
    if k > 0 {
      EveryRunIsOrderly(ds, es, limit, k - 1);
      StepKeepsInv(ds[k - 1], es[k - 1], limit);
    }
  }
}
