/** internal/relay/circuitbreaker.go: the per-node circuit breaker.

    Every method of the original holds the mutex for its whole body and reads the clock inside it,
    so any use by concurrent callers is a sequence of these calls at non-decreasing instants.
    The breaker is specified by its log of recorded outcomes alone: the three states, and the fact
    that Allow itself changes state, are not visible in any contract. */
module CircuitBreakers {

  datatype State = Closed | Open | HalfOpen

  datatype Outcome = Success | Failure(at: real)

  /** Number of failures recorded since the last success. */
  function FailureStreak(log: seq<Outcome>): nat {
    if log == [] || log[|log| - 1].Success? then 0 else FailureStreak(log[..|log| - 1]) + 1
  }

  /** Whether a call at instant `now` is let through, judged from the history only.
      The first disjunct matters only when maxFailures <= 0. */
  predicate Admits(log: seq<Outcome>, maxFailures: int, cooldown: real, now: real) {
    || FailureStreak(log) == 0
    || FailureStreak(log) < maxFailures
    || now - log[|log| - 1].at > cooldown
  }

  class CircuitBreaker {
    var state: State
    var failures: int
    var lastFailTime: real
    const maxFailures: int
    const cooldown: real
    ghost var log: seq<Outcome>
    ghost var clock: real  // the latest instant at which the breaker was used

    ghost predicate Valid()
      reads this
    {
      && failures == FailureStreak(log)
      && (failures > 0 ==> lastFailTime == log[|log| - 1].at)
      && (state.Closed? <==> failures == 0 || failures < maxFailures)
      && (state.HalfOpen? ==> clock - lastFailTime > cooldown)
    }

    constructor (maxFailures: int, cooldown: real, ghost now: real)
      ensures Valid() && log == [] && clock == now
      ensures this.maxFailures == maxFailures && this.cooldown == cooldown
    {
      this.maxFailures := maxFailures;
      this.cooldown := cooldown;
      state := Closed;
      failures := 0;
      lastFailTime := 0.0;
      log := [];
      clock := now;
    }

    method Allow(now: real) returns (allowed: bool)
      requires Valid() && clock <= now
      modifies this
      ensures Valid() && clock == now
      ensures log == old(log)
      ensures allowed <==> Admits(log, maxFailures, cooldown, now)
      // closed after a success, and open again for calls once the cooldown is over
      ensures log == [] || log[|log| - 1].Success? ==> allowed
      ensures log != [] && log[|log| - 1].Failure? && now - log[|log| - 1].at > cooldown ==> allowed
    {
      clock := now;
      match state
      case Closed =>
        allowed := true;
      case Open =>
        if now - lastFailTime > cooldown {
          state := HalfOpen;
          allowed := true;
        } else {
          allowed := false;
        }
      case HalfOpen =>
        allowed := true;
    }

    method RecordSuccess(ghost now: real)
      requires Valid() && clock <= now
      modifies this
      ensures Valid() && clock == now
      ensures log == old(log) + [Success]
    {
      failures := 0;
      state := Closed;
      log := log + [Success];
      clock := now;
    }

    method RecordFailure(now: real)
      requires Valid() && clock <= now
      modifies this
      ensures Valid() && clock == now
      ensures log == old(log) + [Failure(now)]
    {
      failures := failures + 1;
      lastFailTime := now;
      if failures >= maxFailures {
        state := Open;
      }
      log := log + [Failure(now)];
      clock := now;
      assert log[..|log| - 1] == old(log);
    }

    method IsOpen(now: real) returns (open: bool)
      requires Valid() && clock <= now
      ensures open <==> !Admits(log, maxFailures, cooldown, now)
    {
      open := state == Open && now - lastFailTime <= cooldown;
    }
  }

  /** The streak is the number of failures at the end of the log: they are preceded by a success or by
      nothing. */
  lemma {:induction false} StreakIsTail(log: seq<Outcome>)
    ensures var n := FailureStreak(log);
            && n <= |log|
            && (forall i | |log| - n <= i < |log| :: log[i].Failure?)
            && (n < |log| ==> log[|log| - n - 1].Success?)
  {
    if log != [] && log[|log| - 1].Failure? {
      StreakIsTail(log[..|log| - 1]);
    }
  }

  /** A call is refused exactly when at least maxFailures outcomes, and at least one, at the end of the log
      are failures, and the last of them is not longer ago than the cooldown. */
  lemma RefusedIff(log: seq<Outcome>, maxFailures: int, cooldown: real, now: real)
    ensures !Admits(log, maxFailures, cooldown, now) <==>
              && 0 < |log| && maxFailures <= |log|
              && (forall i | 0 <= i < |log| && |log| - i <= maxFailures :: log[i].Failure?)
              && log[|log| - 1].Failure? && now - log[|log| - 1].at <= cooldown
  {
    StreakIsTail(log);
    var n := FailureStreak(log);
    if n < |log| && n < maxFailures <= |log| {
      assert log[|log| - n - 1].Success?;
    }
  }
}
