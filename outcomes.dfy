/**
 * What a run of the probe loop computes from the sequence of probe outcomes
 * (true for a reachable host), independently of how either version of the
 * loop is written: the failure count, the consecutive-failure counter, the
 * number of recoveries and the time of the last failure.
 */
module Outcomes {
  import opened Wrappers
  import opened Strings

  /** Number of failed probes. */
  function Failures(outcomes: seq<bool>): (n: nat)
    ensures n <= |outcomes|
  {
    if outcomes == [] then 0
    else Failures(outcomes[..|outcomes| - 1]) + (if outcomes[|outcomes| - 1] then 0 else 1)
  }

  /**
   * The consecutive-failure counter after the outcomes, starting from `start`:
   * a failure increments it, a success resets it to zero.
   */
  function Streak(start: nat, outcomes: seq<bool>): (k: nat)
    ensures outcomes == [] ==> k == start
    ensures outcomes != [] ==> (k > 0 <==> !outcomes[|outcomes| - 1])
    ensures k <= start + Failures(outcomes)
  {
    if outcomes == [] then start
    else if outcomes[|outcomes| - 1] then 0
    else Streak(start, outcomes[..|outcomes| - 1]) + 1
  }

  /**
   * Number of successful probes that come right after a failed one, read
   * from the front; `failing` says whether the probe before the first one
   * failed.
   */
  function Recoveries(failing: bool, outcomes: seq<bool>): nat
    decreases |outcomes|
  {
    if outcomes == [] then 0
    else (if outcomes[0] && failing then 1 else 0) + Recoveries(!outcomes[0], outcomes[1..])
  }

  /** Whether the most recent probe failed (or, before any probe, the given state). */
  function FailingAfter(failing: bool, outcomes: seq<bool>): bool
  {
    if outcomes == [] then failing else !outcomes[|outcomes| - 1]
  }

  /** The time of the most recent failed probe, or `previous` when none failed. */
  function LastFailure(previous: Option<int>, outcomes: seq<bool>, times: seq<int>): (r: Option<int>)
    requires |times| == |outcomes|
    ensures Failures(outcomes) == 0 ==> r == previous
    ensures Failures(outcomes) > 0 ==> exists j ::
      && 0 <= j < |outcomes| && !outcomes[j] && r == Some(times[j])
      && forall k :: j < k < |outcomes| ==> outcomes[k]
  {
    if outcomes == [] then previous
    else if !outcomes[|outcomes| - 1] then Some(times[|times| - 1])
    else LastFailure(previous, outcomes[..|outcomes| - 1], times[..|times| - 1])
  }

  /** Counting recoveries from the front agrees with adding one probe at the back. */
  lemma {:induction false} RecoveriesSnoc(failing: bool, outcomes: seq<bool>, ok: bool)
    ensures Recoveries(failing, outcomes + [ok])
      == Recoveries(failing, outcomes) + (if ok && FailingAfter(failing, outcomes) then 1 else 0)
    decreases |outcomes|
  {
    if outcomes != [] {
      var s := outcomes + [ok];
      assert s[1..] == outcomes[1..] + [ok];
      RecoveriesSnoc(!outcomes[0], outcomes[1..], ok);
      if |outcomes| > 1 {
        assert outcomes[1..][|outcomes| - 2] == outcomes[|outcomes| - 1];
      }
    }
  }

  lemma {:induction false} FailuresCons(ok: bool, outcomes: seq<bool>)
    ensures Failures([ok] + outcomes) == (if ok then 0 else 1) + Failures(outcomes)
  {
    if outcomes != [] {
      var s := [ok] + outcomes;
      assert s[..|s| - 1] == [ok] + outcomes[..|outcomes| - 1];
      FailuresCons(ok, outcomes[..|outcomes| - 1]);
    } else {
      assert [ok][..0] == [];
    }
  }

  /**
   * Every recovery follows a failure: the recoveries, plus one if the loop
   * ends in a failing state, never exceed the failures plus one for a
   * failing state at the start.
   */
  lemma {:induction false} RecoveriesBounded(failing: bool, outcomes: seq<bool>)
    ensures Recoveries(failing, outcomes) + (if FailingAfter(failing, outcomes) then 1 else 0)
      <= Failures(outcomes) + (if failing then 1 else 0)
    decreases |outcomes|
  {
    if outcomes != [] {
      RecoveriesBounded(!outcomes[0], outcomes[1..]);
      FailuresCons(outcomes[0], outcomes[1..]);
      assert [outcomes[0]] + outcomes[1..] == outcomes;
      if |outcomes| > 1 {
        assert outcomes[1..][|outcomes| - 2] == outcomes[|outcomes| - 1];
      }
    }
  }
}
