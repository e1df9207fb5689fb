/** `canSubmitForm`, the submission rate limiter both scripts define
    identically (donation-form.js:119-129, script.js:200-210): one mutable
    timestamp and a 3000 ms cooldown. The clock (`Date.now()`) is a parameter. */
module RateLimit {

  const SubmissionCooldown := 3000

  /** Enough time has passed since the last accepted submission. */
  predicate CooldownElapsed(last: int, now: int)
  {
    now - last >= SubmissionCooldown
  }

  class SubmissionLimiter {
    var lastSubmissionTime: int

    constructor ()
      ensures lastSubmissionTime == 0
    {
      lastSubmissionTime := 0;
    }

    /** `canSubmitForm()` at time `now`: refuses within the cooldown and
        leaves the timestamp alone; otherwise accepts and records `now`. */
    method CanSubmit(now: int) returns (ok: bool)
      modifies this
      ensures ok <==> CooldownElapsed(old(lastSubmissionTime), now)
      ensures lastSubmissionTime == if ok then now else old(lastSubmissionTime)
    {
      if now - lastSubmissionTime < SubmissionCooldown {
        return false;
      }
      lastSubmissionTime := now;
      return true;
    }

    /** `canSubmitForm()` called at each of `times` in turn: the answers
        are those `Replay` gives from the timestamp the limiter holds. */
    method CanSubmitEach(times: seq<int>) returns (answers: seq<bool>)
      modifies this
      ensures answers == Replay(old(lastSubmissionTime), times)
    {
      ghost var start := lastSubmissionTime;
      answers := [];
      var k := 0;
      while k < |times|
        invariant 0 <= k <= |times|
        invariant answers + Replay(lastSubmissionTime, times[k..]) == Replay(start, times)
      {
        assert times[k..][0] == times[k] && times[k..][1..] == times[k + 1..];
        var ok := CanSubmit(times[k]);
        answers := answers + [ok];
        k := k + 1;
      }
      assert times[k..] == [];
    }
  }

  /** The answers `canSubmitForm` gives to calls at `times`, starting from
      the timestamp `last`: each step is `CanSubmit`'s, as
      `SubmissionLimiter.CanSubmitEach` proves. */
  function Replay(last: int, times: seq<int>): (answers: seq<bool>)
    ensures |answers| == |times|
    decreases |times|
  {
    if times == [] then []
    else
      var ok := CooldownElapsed(last, times[0]);
      [ok] + Replay(if ok then times[0] else last, times[1..])
  }

  /** An accepted call lies at least a cooldown after any earlier timestamp
      the replay started from. */
  lemma {:induction false} AcceptedAfterStart(last: int, times: seq<int>, j: nat)
    requires j < |times| && Replay(last, times)[j]
    ensures times[j] - last >= SubmissionCooldown
    decreases |times|
  {
    if j > 0 {
      var ok := CooldownElapsed(last, times[0]);
      AcceptedAfterStart(if ok then times[0] else last, times[1..], j - 1);
    }
  }

  /** Whatever the clock does (it need not even be monotonic), any two
      accepted submissions are at least 3000 ms apart, the later one last. */
  lemma {:induction false} AcceptedAreSpaced(last: int, times: seq<int>, i: nat, j: nat)
    requires i < j < |times|
    requires Replay(last, times)[i] && Replay(last, times)[j]
    ensures times[j] - times[i] >= SubmissionCooldown
    decreases |times|
  {
    var ok := CooldownElapsed(last, times[0]);
    var next := if ok then times[0] else last;
    if i == 0 {
      AcceptedAfterStart(next, times[1..], j - 1);
    } else {
      AcceptedAreSpaced(next, times[1..], i - 1, j - 1);
    }
  }

  /** A second call less than 3000 ms after an accepted one is refused. */
  lemma SecondCallWithinCooldownRefused(last: int, t1: int, t2: int)
    requires CooldownElapsed(last, t1) && t2 - t1 < SubmissionCooldown
    ensures Replay(last, [t1, t2]) == [true, false]
  {
    assert [t1, t2][1..] == [t2];
  }
}
