/** internal/relay/client.go: every remote call is admitted by the breaker first and then records
    exactly one outcome. */
module RelayClients {
  import opened Common
  import opened CircuitBreakers

  datatype CallError = CircuitOpen | NotConnected | RpcFailed

  /** The sequence shared by ForwardChunk, FetchChunk and PingNode. `connected` and `answered` say
      how GetConn and the RPC end; `askedAt` and `doneAt` are the instants of Allow and of the
      recorded outcome. */
  method Call(cb: CircuitBreaker, askedAt: real, connected: bool, answered: bool, doneAt: real)
    returns (error: Option<CallError>)
    requires cb.Valid() && cb.clock <= askedAt <= doneAt
    modifies cb
    ensures cb.Valid() && cb.clock <= doneAt
    ensures var admitted := Admits(old(cb.log), cb.maxFailures, cb.cooldown, askedAt);
            && (error == Some(CircuitOpen) <==> !admitted)
            && (error == None <==> admitted && connected && answered)
            && (error == Some(NotConnected) <==> admitted && !connected)
    ensures error == None ==> cb.log == old(cb.log) + [Success]
    ensures error == Some(CircuitOpen) ==> cb.log == old(cb.log)
    ensures error != None && error != Some(CircuitOpen) ==> cb.log == old(cb.log) + [Failure(doneAt)]
  {
    var allowed := cb.Allow(askedAt);
    if !allowed {
      return Some(CircuitOpen);
    }
    if !connected {
      cb.RecordFailure(doneAt);
      return Some(NotConnected);
    }
    if !answered {
      cb.RecordFailure(doneAt);
      return Some(RpcFailed);
    }
    cb.RecordSuccess(doneAt);
    return None;
  }

  /** One call of a sequential caller: when it asks the breaker and when it is over. */
  datatype Timing = Timing(asked: real, done: real)

  predicate Sequential(calls: seq<Timing>) {
    calls == [] ||
    (&& calls[0].asked <= calls[0].done
     && (|calls| > 1 ==> calls[0].done <= calls[1].asked)
     && Sequential(calls[1..]))
  }

  /** How many of the calls to a dead node the breaker lets through: each of those fails. */
  function Attempts(log: seq<Outcome>, maxFailures: int, cooldown: real, calls: seq<Timing>): nat
    decreases |calls|
  {
    if calls == [] then
      0
    else if Admits(log, maxFailures, cooldown, calls[0].asked) then
      Attempts(log + [Failure(calls[0].done)], maxFailures, cooldown, calls[1..]) + 1
    else
      Attempts(log, maxFailures, cooldown, calls[1..])
  }

  /** A sequential caller of a dead node is let through exactly Attempts times. */
  method CallDeadNode(cb: CircuitBreaker, calls: seq<Timing>) returns (attempts: nat)
    requires cb.Valid() && Sequential(calls)
    requires calls != [] ==> cb.clock <= calls[0].asked
    modifies cb
    ensures cb.Valid() && |cb.log| == |old(cb.log)| + attempts
    ensures attempts == Attempts(old(cb.log), cb.maxFailures, cb.cooldown, calls)
    decreases |calls|
  {
    if calls == [] {
      return 0;
    }
    var error := Call(cb, calls[0].asked, true, false, calls[0].done);
    attempts := CallDeadNode(cb, calls[1..]);
    if error != Some(CircuitOpen) {
      attempts := attempts + 1;
    }
  }

  /** k times the cooldown. */
  function Cooldowns(k: nat, cooldown: real): real {
    if k == 0 then 0.0 else Cooldowns(k - 1, cooldown) + cooldown
  }

  lemma {:induction false} CooldownsIsProduct(k: nat, cooldown: real)
    ensures Cooldowns(k, cooldown) == k as real * cooldown
  {
    if k > 0 {
      CooldownsIsProduct(k - 1, cooldown);
      var before := (k - 1) as real;
      assert (before + 1.0) * cooldown == before * cooldown + cooldown;
      assert k as real == before + 1.0;
    }
  }

  /** Failures the breaker still tolerates before it opens; a breaker that is open already may let
      one call through at once. */
  function FreeAttempts(log: seq<Outcome>, maxFailures: int): nat {
    if FailureStreak(log) < maxFailures then maxFailures - FailureStreak(log) else 1
  }

  lemma StreakGrows(log: seq<Outcome>, at: real)
    ensures FailureStreak(log + [Failure(at)]) == FailureStreak(log) + 1
  {
    assert (log + [Failure(at)])[..|log|] == log;
  }

  /** Against an open breaker every attempt costs a whole cooldown since the last failure. */
  lemma {:induction false} OpenBreakerSpacesAttempts(log: seq<Outcome>, maxFailures: int, cooldown: real,
                                                     calls: seq<Timing>)
    requires Sequential(calls) && calls != []
    requires 0 < FailureStreak(log) && maxFailures <= FailureStreak(log)
    ensures var n := Attempts(log, maxFailures, cooldown, calls);
            n > 0 ==> Cooldowns(n, cooldown) < calls[|calls| - 1].asked - log[|log| - 1].at
    decreases |calls|
  {
    if |calls| > 1 {
      if Admits(log, maxFailures, cooldown, calls[0].asked) {
        StreakGrows(log, calls[0].done);
        OpenBreakerSpacesAttempts(log + [Failure(calls[0].done)], maxFailures, cooldown, calls[1..]);
        CallsEndLater(calls);
      } else {
        OpenBreakerSpacesAttempts(log, maxFailures, cooldown, calls[1..]);
      }
    } else {
      assert Attempts(log, maxFailures, cooldown, calls) <= 1;
    }
  }

  lemma CallsEndLater(calls: seq<Timing>)
    requires Sequential(calls) && calls != []
    ensures calls[0].asked <= calls[|calls| - 1].asked
  {
  }

  /** Whatever the breaker saw before, n attempts that all fail and exceed the free ones take more
      than a cooldown for each attempt in excess: n <= free + T / cooldown in a run of length T. */
  lemma {:induction false} DeadNodeAttemptsBounded(log: seq<Outcome>, maxFailures: int, cooldown: real,
                                                   calls: seq<Timing>)
    requires Sequential(calls) && calls != []
    ensures var n, free := Attempts(log, maxFailures, cooldown, calls), FreeAttempts(log, maxFailures);
            n > free ==>
              (n - free) as real * cooldown < calls[|calls| - 1].asked - calls[0].asked
  {
    var n, free := Attempts(log, maxFailures, cooldown, calls), FreeAttempts(log, maxFailures);
    if n > free {
      ExcessAttemptsTakeTime(log, maxFailures, cooldown, calls);
      CooldownsIsProduct(n - free, cooldown);
    }
  }

  lemma {:induction false} ExcessAttemptsTakeTime(log: seq<Outcome>, maxFailures: int, cooldown: real,
                                                  calls: seq<Timing>)
    requires Sequential(calls) && calls != []
    ensures var n, free := Attempts(log, maxFailures, cooldown, calls), FreeAttempts(log, maxFailures);
            n > free ==> Cooldowns(n - free, cooldown) < calls[|calls| - 1].asked - calls[0].asked
    decreases |calls|
  {
    if |calls| > 1 {
      if Admits(log, maxFailures, cooldown, calls[0].asked) {
        var log' := log + [Failure(calls[0].done)];
        StreakGrows(log, calls[0].done);
        if FreeAttempts(log, maxFailures) == 1 {
          OpenBreakerSpacesAttempts(log', maxFailures, cooldown, calls[1..]);
        } else {
          ExcessAttemptsTakeTime(log', maxFailures, cooldown, calls[1..]);
        }
      } else {
        ExcessAttemptsTakeTime(log, maxFailures, cooldown, calls[1..]);
      }
    } else {
      assert Attempts(log, maxFailures, cooldown, calls) <= 1;
    }
  }

  // ----- the dead node is tried again and again

  /** The caller asks again at most `gap` after it asked last, and a call takes at most `span`. */
  predicate Persistent(calls: seq<Timing>, gap: real, span: real) {
    calls == [] ||
    (&& calls[0].done <= calls[0].asked + span
     && (|calls| > 1 ==> calls[1].asked <= calls[0].asked + gap)
     && Persistent(calls[1..], gap, span))
  }

  /** Once a failure is recorded, each further attempt follows within a cooldown, a gap and a span. */
  lemma {:induction false} NextAttemptFollows(log: seq<Outcome>, maxFailures: int, cooldown: real, calls: seq<Timing>,
                                              gap: real, span: real)
    requires Sequential(calls) && Persistent(calls, gap, span) && calls != []
    requires cooldown >= 0.0 && gap >= 0.0 && 0 < FailureStreak(log)
    requires calls[0].asked <= log[|log| - 1].at + cooldown + gap
    ensures var n := Attempts(log, maxFailures, cooldown, calls);
            calls[|calls| - 1].asked <= log[|log| - 1].at + cooldown + Cooldowns(n, cooldown + gap + span)
    decreases |calls|
  {
    var last := log[|log| - 1].at;
    if Admits(log, maxFailures, cooldown, calls[0].asked) {
      var log' := log + [Failure(calls[0].done)];
      StreakGrows(log, calls[0].done);
      if |calls| > 1 {
        NextAttemptFollows(log', maxFailures, cooldown, calls[1..], gap, span);
      }
    } else if |calls| > 1 {
      NextAttemptFollows(log, maxFailures, cooldown, calls[1..], gap, span);
    }
  }

  lemma {:induction false} AttemptsCoverRun(log: seq<Outcome>, maxFailures: int, cooldown: real, calls: seq<Timing>,
                                            gap: real, span: real)
    requires Sequential(calls) && Persistent(calls, gap, span) && calls != []
    requires cooldown >= 0.0 && gap >= 0.0
    requires 0 < FailureStreak(log) ==> log[|log| - 1].at <= calls[0].asked
    ensures var n := Attempts(log, maxFailures, cooldown, calls);
            calls[|calls| - 1].asked - calls[0].asked <= Cooldowns(n, cooldown + gap + span) + cooldown
  {
    if Admits(log, maxFailures, cooldown, calls[0].asked) {
      StreakGrows(log, calls[0].done);
      if |calls| > 1 {
        NextAttemptFollows(log + [Failure(calls[0].done)], maxFailures, cooldown, calls[1..], gap, span);
      }
    } else {
      NextAttemptFollows(log, maxFailures, cooldown, calls, gap, span);
    }
  }

  /** Recovery: a caller that keeps asking is let through at least once per cooldown, gap and span, so the
      breaker never cuts a node off for good. In a run of length T, with n attempts,
      T <= n * (cooldown + gap + span) + cooldown, whatever the breaker saw before. */
  lemma PersistentCallerGetsThrough(log: seq<Outcome>, maxFailures: int, cooldown: real, calls: seq<Timing>,
                                    gap: real, span: real)
    requires Sequential(calls) && Persistent(calls, gap, span) && calls != []
    requires cooldown >= 0.0 && gap >= 0.0
    requires 0 < FailureStreak(log) ==> log[|log| - 1].at <= calls[0].asked
    ensures var n := Attempts(log, maxFailures, cooldown, calls);
            calls[|calls| - 1].asked - calls[0].asked <= n as real * (cooldown + gap + span) + cooldown
  {
    hide *;
    AttemptsCoverRun(log, maxFailures, cooldown, calls, gap, span);
    CooldownsIsProduct(Attempts(log, maxFailures, cooldown, calls), cooldown + gap + span);
  }
}
