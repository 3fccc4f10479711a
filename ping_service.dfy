/**
 * The monitoring engine of the service package as a sequential state
 * machine. The background thread's loop runs as explicit ticks, each with
 * an injected probe outcome and clock reading; the stop event is the flag
 * `stopFlag`; whether the monitoring thread is still alive is `loopAlive`;
 * the callbacks `on_status_change`, `on_stats_update` and `on_error` are
 * recorded, in order, in the event log `events`.
 */
module Service {
  import opened Wrappers
  import opened Validators
  import opened Outcomes
  import Strings
  import Stats

  const IntervalTooShort := "Interval must be at least 1 second"
  const AlreadyRunning := "Monitoring is already running"

  function InvalidHostMessage(reason: string): string
  {
    "Invalid host: " + reason
  }

  /** One callback delivered to the observer. */
  datatype Event = StatusChanged(isUp: bool) | StatsUpdated | Error(message: string)

  /** The callbacks of one tick, given the consecutive-failure counter before it. */
  function TickEvents(streak: nat, ok: bool): seq<Event>
  {
    if !ok then [StatusChanged(false), StatsUpdated]
    else if streak > 0 then [StatusChanged(true), StatsUpdated]
    else [StatsUpdated]
  }

  /** The callbacks of a sequence of ticks, starting from counter `start`. */
  function LoopEvents(start: nat, outcomes: seq<bool>): seq<Event>
  {
    if outcomes == [] then []
    else
      var before := outcomes[..|outcomes| - 1];
      LoopEvents(start, before) + TickEvents(Streak(start, before), outcomes[|outcomes| - 1])
  }

  /** What one run of the loop reads and writes: the counters, the last failure, the local failure counter and the callbacks. */
  datatype LoopState = LoopState(total: nat, failed: nat, lastFailure: Option<int>, streak: nat, events: seq<Event>)

  /** The effect of one tick on the loop state. */
  function Step(s: LoopState, ok: bool, now: int): (r: LoopState)
    ensures r.total == s.total + 1
    ensures r.failed == s.failed + (if ok then 0 else 1)
    ensures r.lastFailure == (if ok then s.lastFailure else Some(now))
    ensures r.streak == Streak(s.streak, [ok])
    ensures r.events == s.events + TickEvents(s.streak, ok)
  {
    assert [ok][..0] == [];
    if ok then LoopState(s.total + 1, s.failed, s.lastFailure, 0, s.events + TickEvents(s.streak, ok))
    else LoopState(s.total + 1, s.failed + 1, Some(now), s.streak + 1, s.events + TickEvents(s.streak, ok))
  }

  /** The effect of a sequence of ticks, one after another. */
  function Run(s: LoopState, outcomes: seq<bool>, times: seq<int>): LoopState
    requires |times| == |outcomes|
  {
    if outcomes == [] then s
    else Step(Run(s, outcomes[..|outcomes| - 1], times[..|times| - 1]), outcomes[|outcomes| - 1], times[|times| - 1])
  }

  /**
   * n ticks add n probes, one failure per failed outcome, and the callbacks
   * of LoopEvents; the failure counter and last-failure time are those of
   * the outcome sequence.
   */
  lemma {:induction false} RunTotals(s: LoopState, outcomes: seq<bool>, times: seq<int>)
    requires |times| == |outcomes|
    ensures Run(s, outcomes, times) == LoopState(
      s.total + |outcomes|,
      s.failed + Failures(outcomes),
      LastFailure(s.lastFailure, outcomes, times),
      Streak(s.streak, outcomes),
      s.events + LoopEvents(s.streak, outcomes))
  {
    if outcomes == [] {
      assert s.events + [] == s.events;
    } else {
      var n := |outcomes| - 1;
      RunTotals(s, outcomes[..n], times[..n]);
    }
  }

  lemma TickEventCounts(streak: nat, ok: bool)
    ensures multiset(TickEvents(streak, ok))[StatsUpdated] == 1
    ensures multiset(TickEvents(streak, ok))[StatusChanged(false)] == (if ok then 0 else 1)
    ensures multiset(TickEvents(streak, ok))[StatusChanged(true)] == (if ok && streak > 0 then 1 else 0)
    ensures |TickEvents(streak, ok)| == 1 + (if ok then 0 else 1) + (if ok && streak > 0 then 1 else 0)
  {
  }

  /**
   * Over a run of ticks: one stats update per tick, one "down" notification
   * per failed tick (not only on the first of a streak), and one "up"
   * notification per success that follows a failure.
   */
  lemma {:induction false} LoopEventCounts(start: nat, outcomes: seq<bool>)
    ensures multiset(LoopEvents(start, outcomes))[StatsUpdated] == |outcomes|
    ensures multiset(LoopEvents(start, outcomes))[StatusChanged(false)] == Failures(outcomes)
    ensures multiset(LoopEvents(start, outcomes))[StatusChanged(true)] == Recoveries(start > 0, outcomes)
  {
    if outcomes != [] {
      var before := outcomes[..|outcomes| - 1];
      var ok := outcomes[|outcomes| - 1];
      var streak := Streak(start, before);
      Strings.ButLast(outcomes);
      LoopEventCounts(start, before);
      TickEventCounts(streak, ok);
      RecoveriesSnoc(start > 0, before, ok);
      assert streak > 0 <==> FailingAfter(start > 0, before);
      assert LoopEvents(start, outcomes) == LoopEvents(start, before) + TickEvents(streak, ok);
    }
  }

  /** The callbacks of a run are exactly those counted by `LoopEventCounts`. */
  lemma {:induction false} LoopEventsLength(start: nat, outcomes: seq<bool>)
    ensures |LoopEvents(start, outcomes)| == |outcomes| + Failures(outcomes) + Recoveries(start > 0, outcomes)
  {
    if outcomes != [] {
      var before := outcomes[..|outcomes| - 1];
      var ok := outcomes[|outcomes| - 1];
      var streak := Streak(start, before);
      Strings.ButLast(outcomes);
      LoopEventsLength(start, before);
      TickEventCounts(streak, ok);
      RecoveriesSnoc(start > 0, before, ok);
      assert streak > 0 <==> FailingAfter(start > 0, before);
    }
  }

  /** No tick ever reports an error: errors come only from rejected starts. */
  lemma {:induction false} LoopEventsHaveNoErrors(start: nat, outcomes: seq<bool>)
    ensures forall i :: 0 <= i < |LoopEvents(start, outcomes)| ==> !LoopEvents(start, outcomes)[i].Error?
  {
    if outcomes != [] {
      LoopEventsHaveNoErrors(start, outcomes[..|outcomes| - 1]);
    }
  }

  /** The fail, fail, success, fail run: "down" fires on both failures of the first streak. */
  lemma ExampleFailFailSuccessFail()
    ensures LoopEvents(0, [false, false, true, false]) == [
      StatusChanged(false), StatsUpdated,
      StatusChanged(false), StatsUpdated,
      StatusChanged(true), StatsUpdated,
      StatusChanged(false), StatsUpdated]
    ensures Failures([false, false, true, false]) == 3
  {
    var o := [false, false, true, false];
    assert o[..3] == [false, false, true];
    assert o[..3][..2] == [false, false];
    assert o[..3][..2][..1] == [false];
    assert o[..3][..2][..1][..0] == [];
    assert Streak(0, [false]) == 1;
    assert Streak(0, [false, false]) == 2;
    assert Streak(0, [false, false, true]) == 0;
    assert LoopEvents(0, [false]) == [StatusChanged(false), StatsUpdated];
    assert LoopEvents(0, [false, false]) == LoopEvents(0, [false]) + [StatusChanged(false), StatsUpdated];
    assert LoopEvents(0, [false, false, true]) == LoopEvents(0, [false, false]) + [StatusChanged(true), StatsUpdated];
    assert LoopEvents(0, o) == LoopEvents(0, o[..3]) + [StatusChanged(false), StatsUpdated];
  }

  class PingService {
    var stopFlag: bool
    var loopAlive: bool
    var loopHost: string
    var loopInterval: int
    var failedAttempts: nat
    var events: seq<Event>
    const stats: Stats.PingStats

    /**
     * The engine's invariant: failures never exceed probes, the current
     * failure streak never exceeds the failures, a last-failure time exists
     * exactly when a probe failed, the status is "Running" exactly while the
     * stop flag is clear, and a running loop has a start time and an
     * interval of at least one second.
     */
    ghost predicate Valid()
      reads this, stats
    {
      && stats.failedPings <= stats.totalPings
      && failedAttempts <= stats.failedPings
      && (stats.lastFailure.Some? <==> stats.failedPings > 0)
      && (!stopFlag <==> stats.currentStatus == Stats.Running)
      && (!stopFlag ==> loopAlive && stats.startTime.Some? && loopInterval >= 1)
    }

    /**
     * A running loop was started with a valid host. Kept apart from `Valid`
     * because no tick changes the host or the stop flag.
     */
    ghost predicate RunsOnAcceptedHost()
      reads this
    {
      !stopFlag ==> IsValidHost(loopHost).valid
    }

    /** The single-run guard of `start_monitoring`. */
    predicate IsRunning()
      reads this
    {
      !stopFlag || loopAlive
    }

    /** The part of the engine's state that the monitoring loop updates. */
    function State(): LoopState
      reads this, stats
    {
      LoopState(stats.totalPings, stats.failedPings, stats.lastFailure, failedAttempts, events)
    }

    constructor ()
      ensures Valid() && fresh(stats)
      ensures stopFlag && !loopAlive && failedAttempts == 0 && events == []
      ensures stats.IsInitial()
    {
      stopFlag := true;
      loopAlive := false;
      loopHost := "";
      loopInterval := 0;
      failedAttempts := 0;
      events := [];
      stats := new Stats.PingStats();
    }

    /** `start_monitoring(host, interval)` at clock reading `now`. */
    method StartMonitoring(host: string, interval: int, now: int) returns (started: bool)
      requires Valid()
      modifies this, stats
      ensures Valid()
      ensures old(RunsOnAcceptedHost()) ==> RunsOnAcceptedHost()
      ensures started <==> IsValidHost(host).valid && interval >= 1 && !old(IsRunning())
      ensures !IsValidHost(host).valid ==>
        events == old(events) + [Error(InvalidHostMessage(IsValidHost(host).reason))]
      ensures IsValidHost(host).valid && interval < 1 ==>
        events == old(events) + [Error(IntervalTooShort)]
      ensures IsValidHost(host).valid && interval >= 1 && old(IsRunning()) ==>
        events == old(events) + [Error(AlreadyRunning)]
      ensures !started ==>
        && unchanged(stats)
        && stopFlag == old(stopFlag) && loopAlive == old(loopAlive)
        && loopHost == old(loopHost) && loopInterval == old(loopInterval)
        && failedAttempts == old(failedAttempts)
      ensures started ==>
        && !stopFlag && loopAlive && loopHost == host && loopInterval == interval
        && failedAttempts == 0 && events == old(events)
        && stats.totalPings == 0 && stats.failedPings == 0
        && stats.startTime == Some(now) && stats.lastFailure == None
        && stats.currentStatus == Stats.Running
    {
      var verdict := IsValidHost(host);
      if !verdict.valid {
        events := events + [Error(InvalidHostMessage(verdict.reason))];
        return false;
      }
      if interval < 1 {
        events := events + [Error(IntervalTooShort)];
        return false;
      }
      if !stopFlag || loopAlive {
        events := events + [Error(AlreadyRunning)];
        return false;
      }
      BeginRun(host, interval, now);
      started := true;
    }

    /** Clearing the stop flag, resetting the statistics and starting the thread on a valid host and interval. */
    method BeginRun(host: string, interval: int, now: int)
      requires Valid() && stopFlag && !loopAlive
      requires IsValidHost(host).valid && interval >= 1
      modifies this, stats
      ensures Valid() && RunsOnAcceptedHost()
      ensures !stopFlag && loopAlive && loopHost == host && loopInterval == interval
      ensures failedAttempts == 0 && events == old(events)
      ensures stats.totalPings == 0 && stats.failedPings == 0
      ensures stats.startTime == Some(now) && stats.lastFailure == None
      ensures stats.currentStatus == Stats.Running
    {
      stopFlag := false;
      stats.Reset();
      stats.startTime := Some(now);
      stats.currentStatus := Stats.Running;
      loopHost, loopInterval, failedAttempts := host, interval, 0;
      loopAlive := true;
    }

    /**
     * `stop_monitoring`. `exitsInTime` says whether a live monitoring thread
     * finishes within the join timeout; `timedOut` is the warning raised
     * when it does not.
     */
    method StopMonitoring(exitsInTime: bool) returns (timedOut: bool)
      requires Valid()
      modifies this, stats
      ensures Valid()
      ensures RunsOnAcceptedHost()
      ensures stopFlag && stats.currentStatus == Stats.Stopped
      ensures loopAlive == (old(loopAlive) && !exitsInTime)
      ensures timedOut <==> loopAlive
      ensures events == old(events) + [StatsUpdated]
      ensures stats.totalPings == old(stats.totalPings) && stats.failedPings == old(stats.failedPings)
      ensures stats.startTime == old(stats.startTime) && stats.lastFailure == old(stats.lastFailure)
      ensures loopHost == old(loopHost) && loopInterval == old(loopInterval)
      ensures failedAttempts == old(failedAttempts)
    {
      stopFlag := true;
      timedOut := false;
      if loopAlive {
        loopAlive := !exitsInTime;
        timedOut := loopAlive;
      }
      stats.currentStatus := Stats.Stopped;
      events := events + [StatsUpdated];
    }

    /** A monitoring thread that outlived the join notices the stop flag and ends. */
    method LoopExits()
      requires Valid()
      modifies this
      ensures Valid()
      ensures loopAlive == (old(loopAlive) && !stopFlag)
      ensures stopFlag == old(stopFlag) && events == old(events) && failedAttempts == old(failedAttempts)
      ensures loopHost == old(loopHost) && loopInterval == old(loopInterval)
    {
      if stopFlag {
        loopAlive := false;
      }
    }

    /** One pass of the body of `_monitor_loop`, with probe outcome `ok` at clock reading `now`. */
    method Tick(ok: bool, now: int)
      requires Valid()
      modifies this, stats
      ensures Valid()
      ensures old(stopFlag) ==> unchanged(this) && unchanged(stats)
      ensures !old(stopFlag) ==> State() == Step(old(State()), ok, now)
      ensures stopFlag == old(stopFlag) && loopAlive == old(loopAlive)
      ensures loopHost == old(loopHost) && loopInterval == old(loopInterval)
      ensures stats.startTime == old(stats.startTime) && stats.currentStatus == old(stats.currentStatus)
    {
      if stopFlag {
        return;
      }
      stats.totalPings := stats.totalPings + 1;
      if !ok {
        failedAttempts := failedAttempts + 1;
        stats.failedPings := stats.failedPings + 1;
        stats.lastFailure := Some(now);
        events := events + [StatusChanged(false)];
      } else {
        if failedAttempts > 0 {
          events := events + [StatusChanged(true)];
        }
        failedAttempts := 0;
      }
      events := events + [StatsUpdated];
    }

    /**
     * `_monitor_loop` over the probe outcomes `outcomes`, probed at clock
     * readings `times`; the end of the sequence stands for the stop flag
     * being set by another thread.
     */
    method MonitorLoop(outcomes: seq<bool>, times: seq<int>)
      requires Valid() && |times| == |outcomes|
      modifies this, stats
      ensures Valid()
      ensures var ran := if old(stopFlag) then [] else outcomes;
        var at := if old(stopFlag) then [] else times;
        && stats.totalPings == old(stats.totalPings) + |ran|
        && stats.failedPings == old(stats.failedPings) + Failures(ran)
        && stats.lastFailure == LastFailure(old(stats.lastFailure), ran, at)
        && failedAttempts == Streak(old(failedAttempts), ran)
        && events == old(events) + LoopEvents(old(failedAttempts), ran)
      ensures stopFlag == old(stopFlag) && loopAlive == old(loopAlive)
      ensures loopHost == old(loopHost) && loopInterval == old(loopInterval)
      ensures stats.startTime == old(stats.startTime) && stats.currentStatus == old(stats.currentStatus)
    {
      var i := 0;
      while i < |outcomes| && !stopFlag
        invariant 0 <= i <= |outcomes|
        invariant Valid()
        invariant stopFlag == old(stopFlag) && loopAlive == old(loopAlive)
        invariant loopHost == old(loopHost) && loopInterval == old(loopInterval)
        invariant stats.startTime == old(stats.startTime) && stats.currentStatus == old(stats.currentStatus)
        invariant old(stopFlag) ==> i == 0
        invariant State() == Run(old(State()), outcomes[..i], times[..i])
      {
        Tick(outcomes[i], times[i]);
        assert outcomes[..i + 1][..i] == outcomes[..i];
        assert times[..i + 1][..i] == times[..i];
        i := i + 1;
      }
      var ran := if stopFlag then [] else outcomes;
      var at := if stopFlag then [] else times;
      assert outcomes[..i] == ran && times[..i] == at;
      RunTotals(old(State()), ran, at);
    }
  }

  /**
   * A fresh service started on a valid host with the probes failing,
   * failing, succeeding and failing: four probes, three failures, and the
   * exact callbacks in order.
   */
  method FailFailSuccessFailRun(host: string) returns (total: nat, failed: nat, log: seq<Event>)
    requires IsValidHost(host).valid
    ensures total == 4 && failed == 3
    ensures log == [
      StatusChanged(false), StatsUpdated,
      StatusChanged(false), StatsUpdated,
      StatusChanged(true), StatsUpdated,
      StatusChanged(false), StatsUpdated]
  {
    var service := new PingService();
    var started := service.StartMonitoring(host, 1, 100);
    ExampleFailFailSuccessFail();
    service.MonitorLoop([false, false, true, false], [101, 102, 103, 104]);
    total, failed, log := service.stats.totalPings, service.stats.failedPings, service.events;
  }

  /** Rejected starts on a fresh service: an interval of 0 with a valid host, then an invalid host. */
  method RejectedStarts(good: string, bad: string) returns (zeroInterval: bool, badHost: bool, log: seq<Event>)
    requires IsValidHost(good).valid && !IsValidHost(bad).valid
    ensures !zeroInterval && !badHost
    ensures log == [Error(IntervalTooShort), Error(InvalidHostMessage(IsValidHost(bad).reason))]
  {
    var service := new PingService();
    zeroInterval := service.StartMonitoring(good, 0, 100);
    badHost := service.StartMonitoring(bad, 1, 100);
    log := service.events;
  }

  /**
   * A second start while the first run is active is refused and leaves that
   * run's start time and host as they were.
   */
  method SecondStartRejected(host: string, other: string) returns (first: bool, second: bool, startedAt: Option<int>, runningHost: string, log: seq<Event>)
    requires IsValidHost(host).valid && IsValidHost(other).valid
    ensures first && !second
    ensures startedAt == Some(100) && runningHost == host
    ensures log == [Error(AlreadyRunning)]
  {
    var service := new PingService();
    first := service.StartMonitoring(host, 1, 100);
    second := service.StartMonitoring(other, 1, 200);
    startedAt, runningHost, log := service.stats.startTime, service.loopHost, service.events;
  }

  /** A second stop right after a first changes nothing but another stats update. */
  method StopTwice(service: PingService, exitsInTime: bool)
    requires service.Valid()
    modifies service, service.stats
    ensures service.Valid() && service.stopFlag && service.stats.currentStatus == Stats.Stopped
    ensures service.loopAlive == (old(service.loopAlive) && !exitsInTime)
    ensures service.events == old(service.events) + [StatsUpdated, StatsUpdated]
    ensures service.stats.totalPings == old(service.stats.totalPings)
    ensures service.stats.failedPings == old(service.stats.failedPings)
    ensures service.stats.startTime == old(service.stats.startTime)
    ensures service.stats.lastFailure == old(service.stats.lastFailure)
    ensures service.loopHost == old(service.loopHost) && service.loopInterval == old(service.loopInterval)
    ensures service.failedAttempts == old(service.failedAttempts)
  {
    var _ := service.StopMonitoring(exitsInTime);
    var _ := service.StopMonitoring(exitsInTime);
  }
}
