/**
 * The statistics record of one monitoring run: counters, optional
 * timestamps (seconds on an injected clock) and a status label, with the
 * derived success rate and uptime.
 */
module Stats {
  import opened Wrappers
  import opened Strings

  const NotRunning := "Not Running"
  const Running := "Running"
  const Stopped := "Stopped"

  const SecondsPerHour := 3600
  const SecondsPerMinute := 60

  /** Whole hours and the remaining whole minutes of an elapsed time. */
  datatype UptimeParts = UptimeParts(hours: int, minutes: nat)

  /** Splits elapsed seconds as `s // 3600` and `(s % 3600) // 60` (floor division). */
  function SplitUptime(seconds: int): (u: UptimeParts)
    ensures u.minutes < 60
    ensures u.hours * SecondsPerHour + u.minutes * SecondsPerMinute <= seconds
    ensures seconds < u.hours * SecondsPerHour + u.minutes * SecondsPerMinute + SecondsPerMinute
  {
    UptimeParts(seconds / SecondsPerHour, (seconds % SecondsPerHour) / SecondsPerMinute)
  }

  /** `f"{hours}h {minutes}m"`. */
  function UptimeText(u: UptimeParts): string
  {
    IntText(u.hours) + "h " + Decimal(u.minutes) + "m"
  }

  /** Any two splits meeting SplitUptime's postconditions are the same split. */
  lemma UptimeSplitIsUnique(seconds: int, u: UptimeParts)
    requires u.minutes < 60
    requires u.hours * SecondsPerHour + u.minutes * SecondsPerMinute <= seconds
    requires seconds < u.hours * SecondsPerHour + u.minutes * SecondsPerMinute + SecondsPerMinute
    ensures u == SplitUptime(seconds)
  {
    var h, m := u.hours, u.minutes;
    assert h * SecondsPerHour <= seconds < h * SecondsPerHour + SecondsPerHour;
    DivisionIsUnique(seconds, SecondsPerHour, h);
    assert seconds % SecondsPerHour == seconds - h * SecondsPerHour;
    DivisionIsUnique(seconds % SecondsPerHour, SecondsPerMinute, m);
  }

  lemma DivisionIsUnique(n: int, d: int, q: int)
    requires d > 0 && q * d <= n < q * d + d
    ensures q == n / d
  {
    var r := n / d;
    if q < r {
      MultiplyMonotone(q + 1, r, d);
      assert false;
    } else if q > r {
      MultiplyMonotone(r + 1, q, d);
      assert false;
    }
  }

  lemma MultiplyMonotone(a: int, b: int, d: int)
    ensures a <= b && d >= 0 ==> a * d <= b * d
  {
    if a <= b && d >= 0 {
      assert b * d - a * d == (b - a) * d;
    }
  }

  class PingStats {
    var totalPings: nat
    var failedPings: nat
    var startTime: Option<int>
    var lastFailure: Option<int>
    var currentStatus: string

    /** The state of a freshly constructed record. */
    predicate IsInitial()
      reads this
    {
      && totalPings == 0
      && failedPings == 0
      && startTime == None
      && lastFailure == None
      && currentStatus == NotRunning
    }

    constructor ()
      ensures IsInitial()
    {
      totalPings := 0;
      failedPings := 0;
      startTime := None;
      lastFailure := None;
      currentStatus := NotRunning;
    }

    /** `reset`: back to the state of fresh construction, whatever came before. */
    method Reset()
      modifies this
      ensures IsInitial()
    {
      totalPings := 0;
      failedPings := 0;
      startTime := None;
      lastFailure := None;
      currentStatus := NotRunning;
    }

    /** `success_rate`, as a percentage. */
    function SuccessRate(): (rate: real)
      reads this
      ensures totalPings == 0 ==> rate == 0.0
      ensures totalPings > 0 ==> rate * (totalPings as real) == ((totalPings - failedPings) as real) * 100.0
      ensures failedPings <= totalPings ==> 0.0 <= rate <= 100.0
      ensures totalPings > 0 ==> (rate == 100.0 <==> failedPings == 0)
      ensures totalPings > 0 ==> (rate == 0.0 <==> failedPings == totalPings)
    {
      if totalPings == 0 then 0.0
      else
        RateBounds(totalPings, failedPings);
        ((totalPings - failedPings) as real / totalPings as real) * 100.0
    }

    /** `uptime` at clock reading `now`. */
    function Uptime(now: int): (text: string)
      reads this
      ensures startTime == None ==> text == "0h 0m"
      ensures startTime != None ==> exists u: UptimeParts ::
        && u.minutes < 60
        && u.hours * SecondsPerHour + u.minutes * SecondsPerMinute <= now - startTime.value
        && now - startTime.value < u.hours * SecondsPerHour + u.minutes * SecondsPerMinute + SecondsPerMinute
        && text == UptimeText(u)
    {
      match startTime
      case None => UptimeText(UptimeParts(0, 0))
      case Some(start) => UptimeText(SplitUptime(now - start))
    }
  }

  lemma RateBounds(total: nat, failed: nat)
    requires total > 0
    ensures var rate := ((total - failed) as real / total as real) * 100.0;
      && rate * (total as real) == ((total - failed) as real) * 100.0
      && (failed <= total ==> 0.0 <= rate <= 100.0)
      && (rate == 100.0 <==> failed == 0)
      && (rate == 0.0 <==> failed == total)
  {
    var q := (total - failed) as real / total as real;
    assert q * (total as real) == (total - failed) as real;
    if failed <= total {
      assert q <= 1.0 by {
        if q > 1.0 {
          assert q * (total as real) > total as real;
        }
      }
    }
  }

  /** Resetting twice leaves the same state as resetting once. */
  method ResetTwice(stats: PingStats)
    modifies stats
    ensures stats.IsInitial()
  {
    stats.Reset();
    var once := (stats.totalPings, stats.failedPings, stats.startTime, stats.lastFailure, stats.currentStatus);
    stats.Reset();
    assert once == (stats.totalPings, stats.failedPings, stats.startTime, stats.lastFailure, stats.currentStatus);
  }
}
