/**
 * The monitoring logic of the single-file desktop application: its own
 * statistics record, its regular-expression host check, and the
 * start/stop toggle with the monitoring thread's loop run as explicit
 * ticks. Message boxes and the lines the thread writes to the log panel
 * are recorded, in order, in `notices`.
 */
module Legacy {
  import opened Wrappers
  import opened Strings
  import opened Outcomes
  import Validators

  const NotRunning := "Не запущен"
  const Running := "Запущен"
  const Stopped := "Остановлен"

  const AlreadyRunningBox := "Мониторинг уже запущен"
  const BadHostBox := "Некорректный формат хоста"
  const NotIntegerBox := "Интервал должен быть целым числом"

  /** `(\d{1,3}\.){3}\d{1,3}`: four dot-separated groups of one to three digits. */
  predicate IpShape(host: string)
  {
    IsQuad(Split(host, '.'))
  }

  predicate IsQuad(groups: seq<string>)
  {
    |groups| == 4 && forall i :: 0 <= i < 4 ==> IsDigitString(groups[i]) && |groups[i]| <= 3
  }

  /** The groups of an IP-shaped string, each at most 255. */
  predicate GroupsInRange(host: string)
  {
    IpShape(host) && AllAtMost255(Split(host, '.'))
  }

  predicate AllAtMost255(groups: seq<string>)
  {
    forall i :: 0 <= i < |groups| ==> AllDigits(groups[i]) && Value(groups[i]) <= 255
  }

  /**
   * `[a-zA-Z0-9]([a-zA-Z0-9-]{0,61}[a-zA-Z0-9])?(\.[a-zA-Z]{2,})+`: a first
   * label followed by one or more alphabetic labels of at least two letters.
   */
  predicate DomainShape(host: string)
  {
    IsDomainLabels(Split(host, '.'))
  }

  predicate IsDomainLabels(labels: seq<string>)
  {
    && |labels| >= 2
    && Validators.IsLabel(labels[0])
    && forall i :: 1 <= i < |labels| ==> Validators.IsTopLevelLabel(labels[i])
  }

  /**
   * `is_valid_host` of the application. When the IP pattern matches only
   * thanks to a final newline, `int()` ignores that newline, so the groups
   * are read from the string without it.
   */
  function IsValidHost(host: string): (ok: bool)
    ensures host == [] || |host| > Validators.MaxHostLength ==> !ok
    ensures 0 < |host| <= Validators.MaxHostLength && IpShape(host) ==> (ok <==> GroupsInRange(host))
    ensures 0 < |host| <= Validators.MaxHostLength && !AnchoredMatch(IpShape, host) ==>
      (ok <==> AnchoredMatch(DomainShape, host))
    ensures ok ==> AnchoredMatch(IpShape, host) || AnchoredMatch(DomainShape, host)
  {
    if host == [] || |host| > Validators.MaxHostLength then false
    else if AnchoredMatch(IpShape, host) then
      GroupsInRange(if IpShape(host) then host else host[..|host| - 1])
    else AnchoredMatch(DomainShape, host)
  }

  /** The application's statistics record. */
  class PingStats {
    var totalPings: nat
    var failedPings: nat
    var startTime: Option<int>
    var lastFailure: Option<int>
    var currentStatus: string

    predicate IsInitial()
      reads this
    {
      && totalPings == 0
      && failedPings == 0
      && startTime == None
      && lastFailure == None
      && currentStatus == NotRunning
    }

    constructor ()
      ensures IsInitial()
    {
      totalPings := 0;
      failedPings := 0;
      startTime := None;
      lastFailure := None;
      currentStatus := NotRunning;
    }

    /** `reset`, which re-runs the initialiser on the same object. */
    method Reset()
      modifies this
      ensures IsInitial()
    {
      totalPings := 0;
      failedPings := 0;
      startTime := None;
      lastFailure := None;
      currentStatus := NotRunning;
    }
  }

  /** A message box or a line the monitoring thread writes to the log panel. */
  datatype Notice =
    | ErrorBox(message: string)
    | MonitorStarted(host: string, interval: int)
    | HostUnreachable(at: int, attempt: nat)
    | ConnectionRestored
    | MonitorStopped

  /** The log lines of one tick at clock reading `now`, given the attempt counter before it. */
  function TickNotices(streak: nat, ok: bool, now: int): seq<Notice>
  {
    if !ok then [HostUnreachable(now, streak + 1)]
    else if streak > 0 then [ConnectionRestored]
    else []
  }

  /** The log lines of a sequence of ticks, starting from attempt counter `start`. */
  function LoopNotices(start: nat, outcomes: seq<bool>, times: seq<int>): seq<Notice>
    requires |times| == |outcomes|
  {
    if outcomes == [] then []
    else
      var n := |outcomes| - 1;
      LoopNotices(start, outcomes[..n], times[..n]) + TickNotices(Streak(start, outcomes[..n]), outcomes[n], times[n])
  }

  lemma TickNoticeCounts(streak: nat, ok: bool, now: int)
    ensures multiset(TickNotices(streak, ok, now))[ConnectionRestored] == (if ok && streak > 0 then 1 else 0)
    ensures |TickNotices(streak, ok, now)| == (if ok then 0 else 1) + (if ok && streak > 0 then 1 else 0)
    ensures forall i :: 0 <= i < |TickNotices(streak, ok, now)| ==>
      TickNotices(streak, ok, now)[i].HostUnreachable? || TickNotices(streak, ok, now)[i] == ConnectionRestored
  {
  }

  /**
   * Over a run of ticks: one "unreachable" line per failed probe, numbered
   * by the attempt counter, one "restored" line per success that follows a
   * failure, and nothing else.
   */
  lemma {:induction false} LoopNoticeCounts(start: nat, outcomes: seq<bool>, times: seq<int>)
    requires |times| == |outcomes|
    ensures multiset(LoopNotices(start, outcomes, times))[ConnectionRestored] == Recoveries(start > 0, outcomes)
    ensures |LoopNotices(start, outcomes, times)| == Failures(outcomes) + Recoveries(start > 0, outcomes)
  {
    if outcomes != [] {
      var n := |outcomes| - 1;
      var streak := Streak(start, outcomes[..n]);
      ButLast(outcomes);
      LoopNoticeCounts(start, outcomes[..n], times[..n]);
      TickNoticeCounts(streak, outcomes[n], times[n]);
      RecoveriesSnoc(start > 0, outcomes[..n], outcomes[n]);
      assert streak > 0 <==> FailingAfter(start > 0, outcomes[..n]);
      assert LoopNotices(start, outcomes, times)
        == LoopNotices(start, outcomes[..n], times[..n]) + TickNotices(streak, outcomes[n], times[n]);
    }
  }

  /** A run of ticks writes only "unreachable" and "restored" lines. */
  lemma {:induction false} LoopNoticeKinds(start: nat, outcomes: seq<bool>, times: seq<int>)
    requires |times| == |outcomes|
    ensures forall i :: 0 <= i < |LoopNotices(start, outcomes, times)| ==>
      LoopNotices(start, outcomes, times)[i].HostUnreachable? || LoopNotices(start, outcomes, times)[i] == ConnectionRestored
  {
    if outcomes != [] {
      var n := |outcomes| - 1;
      LoopNoticeKinds(start, outcomes[..n], times[..n]);
      TickNoticeCounts(Streak(start, outcomes[..n]), outcomes[n], times[n]);
    }
  }

  /** Fail, fail, succeed: two numbered "unreachable" lines, then one "restored" line. */
  lemma ExampleFailFailSuccess()
    ensures LoopNotices(0, [false, false, true], [101, 102, 103])
      == [HostUnreachable(101, 1), HostUnreachable(102, 2), ConnectionRestored]
    ensures Failures([false, false, true]) == 2
  {
    var o, ts := [false, false, true], [101, 102, 103];
    assert o[..2] == [false, false] && ts[..2] == [101, 102];
    assert o[..2][..1] == [false] && ts[..2][..1] == [101];
    assert o[..2][..1][..0] == [] && ts[..2][..1][..0] == [];
    assert Streak(0, [false]) == 1;
    assert Streak(0, [false, false]) == 2;
    assert LoopNotices(0, [false], [101]) == [HostUnreachable(101, 1)];
    assert LoopNotices(0, [false, false], [101, 102]) == [HostUnreachable(101, 1), HostUnreachable(102, 2)];
  }

  /** What one run of the loop reads and writes. */
  datatype LoopState = LoopState(total: nat, failed: nat, lastFailure: Option<int>, streak: nat, notices: seq<Notice>)

  /** The effect of one tick of `monitor` on the loop state. */
  function Step(s: LoopState, ok: bool, now: int): (r: LoopState)
    ensures r.total == s.total + 1
    ensures r.failed == s.failed + (if ok then 0 else 1)
    ensures r.lastFailure == (if ok then s.lastFailure else Some(now))
    ensures r.streak == Streak(s.streak, [ok])
    ensures r.notices == s.notices + TickNotices(s.streak, ok, now)
  {
    assert [ok][..0] == [];
    if ok then LoopState(s.total + 1, s.failed, s.lastFailure, 0, s.notices + TickNotices(s.streak, ok, now))
    else LoopState(s.total + 1, s.failed + 1, Some(now), s.streak + 1, s.notices + TickNotices(s.streak, ok, now))
  }

  /** The effect of a sequence of ticks, one after another. */
  function Run(s: LoopState, outcomes: seq<bool>, times: seq<int>): LoopState
    requires |times| == |outcomes|
  {
    if outcomes == [] then s
    else Step(Run(s, outcomes[..|outcomes| - 1], times[..|times| - 1]), outcomes[|outcomes| - 1], times[|times| - 1])
  }

  /** n ticks add n probes, the failures of the outcomes and the log lines of LoopNotices. */
  lemma {:induction false} RunTotals(s: LoopState, outcomes: seq<bool>, times: seq<int>)
    requires |times| == |outcomes|
    ensures Run(s, outcomes, times) == LoopState(
      s.total + |outcomes|,
      s.failed + Failures(outcomes),
      LastFailure(s.lastFailure, outcomes, times),
      Streak(s.streak, outcomes),
      s.notices + LoopNotices(s.streak, outcomes, times))
  {
    if outcomes == [] {
      assert s.notices + [] == s.notices;
    } else {
      var n := |outcomes| - 1;
      RunTotals(s, outcomes[..n], times[..n]);
    }
  }

  /** The window's monitoring state: the stop event, the thread, and the statistics. */
  class Monitor {
    var stopFlag: bool
    var loopAlive: bool
    var loopHost: string
    var loopInterval: int
    var failedAttempts: nat
    var notices: seq<Notice>
    const stats: PingStats

    /**
     * Failures never exceed probes, the attempt counter never exceeds the
     * failures, a last-failure time exists exactly when a probe failed, the
     * status is "Запущен" exactly while the stop flag is clear, and a running
     * loop has a start time and an interval of at least one second.
     */
    ghost predicate Valid()
      reads this, stats
    {
      && stats.failedPings <= stats.totalPings
      && failedAttempts <= stats.failedPings
      && (stats.lastFailure.Some? <==> stats.failedPings > 0)
      && (!stopFlag <==> stats.currentStatus == Running)
      && (!stopFlag ==> loopAlive && stats.startTime.Some? && loopInterval >= 1)
    }

    /**
     * A running loop was started with a host the check accepted. Kept apart
     * from `Valid` because no tick changes the host or the stop flag.
     */
    ghost predicate RunsOnAcceptedHost()
      reads this
    {
      !stopFlag ==> IsValidHost(loopHost)
    }

    function State(): LoopState
      reads this, stats
    {
      LoopState(stats.totalPings, stats.failedPings, stats.lastFailure, failedAttempts, notices)
    }

    constructor ()
      ensures Valid() && fresh(stats)
      ensures stopFlag && !loopAlive && notices == []
      ensures stats.IsInitial()
    {
      stopFlag := true;
      loopAlive := false;
      loopHost := "";
      loopInterval := 0;
      failedAttempts := 0;
      notices := [];
      stats := new PingStats();
    }

    /**
     * `toggle_monitoring` with the host entry's text, the interval entry
     * read by `int()` (None when that raises), the clock reading `now`, and,
     * for the stop branch, whether a live thread ends within the join timeout.
     */
    method ToggleMonitoring(hostEntry: string, intervalEntry: Option<int>, now: int, exitsInTime: bool)
      requires Valid()
      modifies this, stats
      ensures Valid()
      ensures RunsOnAcceptedHost()
      ensures old(stopFlag) ==> StartOutcome(old(loopAlive), old(notices), old(failedAttempts), Strip(hostEntry), intervalEntry, now)
      ensures old(stopFlag) && stopFlag ==> unchanged(stats) && loopHost == old(loopHost) && loopInterval == old(loopInterval)
      ensures !old(stopFlag) ==>
        && stopFlag && stats.currentStatus == Stopped
        && loopAlive == (old(loopAlive) && !exitsInTime)
        && notices == old(notices) + (if exitsInTime then [MonitorStopped] else [])
        && stats.totalPings == old(stats.totalPings) && stats.failedPings == old(stats.failedPings)
        && stats.startTime == old(stats.startTime) && stats.lastFailure == old(stats.lastFailure)
        && loopHost == old(loopHost) && loopInterval == old(loopInterval)
        && failedAttempts == old(failedAttempts)
    {
      if stopFlag {
        StartFromEntries(Strip(hostEntry), intervalEntry, now);
      } else {
        var _ := StopMonitoring(exitsInTime);
      }
    }

    /**
     * The state after the start branch of `toggle_monitoring`, from the
     * thread's liveness, the notices and the attempt counter before it, and
     * the stripped host entry: a refusal for a live thread, an invalid host
     * or a non-integer interval, in that order, appends a message box and
     * keeps the stop flag, the thread and the attempt counter (the methods
     * taking this branch also state the statistics, host and interval
     * unchanged); otherwise a fresh run with the interval clamped to at
     * least one second.
     */
    ghost predicate StartOutcome(wasAlive: bool, before: seq<Notice>, attempts: nat,
                                 host: string, intervalEntry: Option<int>, now: int)
      reads this, stats
    {
      if wasAlive then notices == before + [ErrorBox(AlreadyRunningBox)] && stopFlag && loopAlive && failedAttempts == attempts
      else if !IsValidHost(host) then notices == before + [ErrorBox(BadHostBox)] && stopFlag && !loopAlive && failedAttempts == attempts
      else if intervalEntry == None then notices == before + [ErrorBox(NotIntegerBox)] && stopFlag && !loopAlive && failedAttempts == attempts
      else
        var interval := if intervalEntry.value < 1 then 1 else intervalEntry.value;
        && !stopFlag && loopAlive && loopHost == host && loopInterval == interval
        && failedAttempts == 0
        && notices == before + [MonitorStarted(host, interval)]
        && stats.totalPings == 0 && stats.failedPings == 0
        && stats.startTime == Some(now) && stats.lastFailure == None
        && stats.currentStatus == Running
    }

    /** The start branch of `toggle_monitoring`, taken while the stop flag is set, on the stripped host entry. */
    method StartFromEntries(host: string, intervalEntry: Option<int>, now: int)
      requires Valid() && stopFlag
      modifies this, stats
      ensures Valid()
      ensures RunsOnAcceptedHost()
      ensures StartOutcome(old(loopAlive), old(notices), old(failedAttempts), host, intervalEntry, now)
      ensures stopFlag ==> unchanged(stats) && loopHost == old(loopHost) && loopInterval == old(loopInterval)
    {
      if loopAlive {
        notices := notices + [ErrorBox(AlreadyRunningBox)];
        return;
      }
      if !IsValidHost(host) {
        notices := notices + [ErrorBox(BadHostBox)];
        return;
      }
      if intervalEntry == None {
        notices := notices + [ErrorBox(NotIntegerBox)];
        return;
      }
      BeginRun(host, if intervalEntry.value < 1 then 1 else intervalEntry.value, now);
    }

    /** Clearing the stop flag, resetting the statistics and starting the thread on an accepted host and interval. */
    method BeginRun(host: string, interval: int, now: int)
      requires Valid() && stopFlag && !loopAlive
      requires IsValidHost(host) && interval >= 1
      modifies this, stats
      ensures Valid()
      ensures RunsOnAcceptedHost()
      ensures !stopFlag && loopAlive && loopHost == host && loopInterval == interval
      ensures failedAttempts == 0
      ensures notices == old(notices) + [MonitorStarted(host, interval)]
      ensures stats.totalPings == 0 && stats.failedPings == 0
      ensures stats.startTime == Some(now) && stats.lastFailure == None
      ensures stats.currentStatus == Running
    {
      stopFlag := false;
      stats.Reset();
      stats.startTime := Some(now);
      stats.currentStatus := Running;
      loopHost, loopInterval, failedAttempts := host, interval, 0;
      loopAlive := true;
      notices := notices + [MonitorStarted(host, interval)];
    }

    /**
     * `stop_monitoring`. A live thread that ends within the join timeout
     * writes its closing line; `timedOut` is the warning logged when it
     * does not end.
     */
    method StopMonitoring(exitsInTime: bool) returns (timedOut: bool)
      requires Valid()
      modifies this, stats
      ensures Valid()
      ensures RunsOnAcceptedHost()
      ensures stopFlag && stats.currentStatus == Stopped
      ensures loopAlive == (old(loopAlive) && !exitsInTime)
      ensures timedOut <==> loopAlive
      ensures notices == old(notices) + (if old(loopAlive) && exitsInTime then [MonitorStopped] else [])
      ensures stats.totalPings == old(stats.totalPings) && stats.failedPings == old(stats.failedPings)
      ensures stats.startTime == old(stats.startTime) && stats.lastFailure == old(stats.lastFailure)
      ensures loopHost == old(loopHost) && loopInterval == old(loopInterval)
      ensures failedAttempts == old(failedAttempts)
    {
      stopFlag := true;
      timedOut := false;
      if loopAlive {
        if exitsInTime {
          loopAlive := false;
          notices := notices + [MonitorStopped];
        }
        timedOut := loopAlive;
      }
      stats.currentStatus := Stopped;
    }

    /** A monitoring thread that outlived the join notices the stop flag, writes its closing line and ends. */
    method LoopExits()
      requires Valid()
      modifies this
      ensures Valid()
      ensures loopAlive == (old(loopAlive) && !stopFlag)
      ensures notices == old(notices) + (if old(loopAlive) && stopFlag then [MonitorStopped] else [])
      ensures stopFlag == old(stopFlag) && failedAttempts == old(failedAttempts)
      ensures loopHost == old(loopHost) && loopInterval == old(loopInterval)
    {
      if stopFlag && loopAlive {
        loopAlive := false;
        notices := notices + [MonitorStopped];
      }
    }

    /** One pass of the body of `monitor`, with probe outcome `ok` at clock reading `now`. */
    method Tick(ok: bool, now: int)
      requires Valid()
      modifies this, stats
      ensures Valid()
      ensures old(stopFlag) ==> unchanged(this) && unchanged(stats)
      ensures !old(stopFlag) ==> State() == Step(old(State()), ok, now)
      ensures stopFlag == old(stopFlag) && loopAlive == old(loopAlive)
      ensures loopHost == old(loopHost) && loopInterval == old(loopInterval)
      ensures stats.startTime == old(stats.startTime) && stats.currentStatus == old(stats.currentStatus)
    {
      if stopFlag {
        return;
      }
      stats.totalPings := stats.totalPings + 1;
      if !ok {
        failedAttempts := failedAttempts + 1;
        stats.failedPings := stats.failedPings + 1;
        stats.lastFailure := Some(now);
        notices := notices + [HostUnreachable(now, failedAttempts)];
      } else {
        if failedAttempts > 0 {
          notices := notices + [ConnectionRestored];
        }
        failedAttempts := 0;
      }
    }

    /**
     * The `while` loop of `monitor` over the probe outcomes `outcomes` at
     * clock readings `times`; the end of the sequence stands for the stop
     * flag being set by the window.
     */
    method MonitorLoop(outcomes: seq<bool>, times: seq<int>)
      requires Valid() && |times| == |outcomes|
      modifies this, stats
      ensures Valid()
      ensures var ran := if old(stopFlag) then [] else outcomes;
        var at := if old(stopFlag) then [] else times;
        && stats.totalPings == old(stats.totalPings) + |ran|
        && stats.failedPings == old(stats.failedPings) + Failures(ran)
        && stats.lastFailure == LastFailure(old(stats.lastFailure), ran, at)
        && failedAttempts == Streak(old(failedAttempts), ran)
        && notices == old(notices) + LoopNotices(old(failedAttempts), ran, at)
      ensures stopFlag == old(stopFlag) && loopAlive == old(loopAlive)
      ensures loopHost == old(loopHost) && loopInterval == old(loopInterval)
      ensures stats.startTime == old(stats.startTime) && stats.currentStatus == old(stats.currentStatus)
    {
      var i := 0;
      while i < |outcomes| && !stopFlag
        invariant 0 <= i <= |outcomes|
        invariant Valid()
        invariant stopFlag == old(stopFlag) && loopAlive == old(loopAlive)
        invariant loopHost == old(loopHost) && loopInterval == old(loopInterval)
        invariant stats.startTime == old(stats.startTime) && stats.currentStatus == old(stats.currentStatus)
        invariant old(stopFlag) ==> i == 0
        invariant State() == Run(old(State()), outcomes[..i], times[..i])
      {
        Tick(outcomes[i], times[i]);
        assert outcomes[..i + 1][..i] == outcomes[..i];
        assert times[..i + 1][..i] == times[..i];
        i := i + 1;
      }
      var ran := if stopFlag then [] else outcomes;
      var at := if stopFlag then [] else times;
      assert outcomes[..i] == ran && times[..i] == at;
      RunTotals(old(State()), ran, at);
    }
  }

  /** A toggle on a running monitor stops it; a second toggle then starts a fresh run. */
  method ToggleStopsThenRestarts(monitor: Monitor, hostEntry: string, n: int, now: int)
    requires monitor.Valid() && !monitor.stopFlag
    requires IsValidHost(Strip(hostEntry))
    modifies monitor, monitor.stats
    ensures monitor.Valid() && !monitor.stopFlag
    ensures monitor.stats.totalPings == 0 && monitor.stats.startTime == Some(now)
    ensures monitor.notices == old(monitor.notices) + [MonitorStopped, MonitorStarted(Strip(hostEntry), if n < 1 then 1 else n)]
  {
    monitor.ToggleMonitoring(hostEntry, Some(n), now, true);
    monitor.ToggleMonitoring(hostEntry, Some(n), now, true);
  }

  /**
   * A fresh window started on an accepted host with interval 0: the
   * interval is raised to one second and the log panel shows the start line.
   */
  method StartClampsInterval(hostEntry: string) returns (interval: int, log: seq<Notice>)
    requires IsValidHost(Strip(hostEntry))
    ensures interval == 1
    ensures log == [MonitorStarted(Strip(hostEntry), 1)]
  {
    var monitor := new Monitor();
    monitor.ToggleMonitoring(hostEntry, Some(0), 100, true);
    interval, log := monitor.loopInterval, monitor.notices;
  }

  /**
   * A run on an accepted host whose probes fail, fail and succeed: the
   * statistics count three probes and two failures, and the log panel shows
   * the start line and the three probe lines.
   */
  method FailFailSuccessRun(host: string) returns (total: nat, failed: nat, log: seq<Notice>)
    requires IsValidHost(host)
    ensures total == 3 && failed == 2
    ensures log == [MonitorStarted(host, 1), HostUnreachable(101, 1), HostUnreachable(102, 2), ConnectionRestored]
  {
    var monitor := new Monitor();
    monitor.BeginRun(host, 1, 100);
    ExampleFailFailSuccess();
    monitor.MonitorLoop([false, false, true], [101, 102, 103]);
    total, failed, log := monitor.stats.totalPings, monitor.stats.failedPings, monitor.notices;
  }
}
