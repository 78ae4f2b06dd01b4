/** pkg/middleware/ratelimit.go: the per-peer token bucket and its background eviction.

    Requests and clean-up ticks take the mutex and read the clock inside it, so a history of the
    limiter is a sequence of events. The functions Admit and Evict say what one locked section does
    to the table; the class methods are proved against them, and the lemmas are about whole runs. */
module RateLimiters {

  datatype Entry = Entry(tokens: real, lastSeen: real)
  type Clients = map<string, Entry>

  /** Idle time, in seconds, after which clean-up forgets a client. */
  const IDLE_LIMIT := 600.0

  datatype Limits = Limits(rate: real, burst: real)

  function Min(x: real, y: real): real {
    if x < y then x else y
  }

  /** Tokens granted in `elapsed` seconds. */
  function Refill(limits: Limits, elapsed: real): real {
    elapsed * limits.rate
  }

  /** Tokens a client can spend at instant `now`, before this request is paid for. */
  function Available(clients: Clients, limits: Limits, key: string, now: real): real {
    if key !in clients then
      limits.burst
    else
      Min(clients[key].tokens + Refill(limits, now - clients[key].lastSeen), limits.burst)
  }

  /** A client that is not in the table is let through without looking at its tokens. */
  predicate Allowed(clients: Clients, limits: Limits, key: string, now: real) {
    key !in clients || Available(clients, limits, key, now) >= 1.0
  }

  function Admit(clients: Clients, limits: Limits, key: string, now: real): Clients {
    var tokens := Available(clients, limits, key, now);
    clients[key := Entry(if Allowed(clients, limits, key, now) then tokens - 1.0 else tokens, now)]
  }

  function Evict(clients: Clients, now: real): Clients {
    map key | key in clients && clients[key].lastSeen >= now - IDLE_LIMIT :: clients[key]
  }

  class RateLimiter {
    var clients: Clients
    const limits: Limits

    constructor (rps: real, burst: int)
      ensures clients == map[] && limits == Limits(rps, burst as real)
    {
      clients := map[];
      limits := Limits(rps, burst as real);
    }

    method Allow(key: string, now: real) returns (ok: bool)
      modifies this
      ensures ok == Allowed(old(clients), limits, key, now)
      ensures clients == Admit(old(clients), limits, key, now)
    {
      if key !in clients {
        clients := clients[key := Entry(limits.burst - 1.0, now)];
        return true;
      }
      var elapsed := now - clients[key].lastSeen;
      var tokens := clients[key].tokens + elapsed * limits.rate;
      if tokens > limits.burst {
        tokens := limits.burst;
      }
      assert tokens == Available(old(clients), limits, key, now);
      clients := clients[key := Entry(tokens, now)];
      if tokens < 1.0 {
        return false;
      }
      clients := clients[key := Entry(tokens - 1.0, now)];
      return true;
    }

    method Cleanup(now: real)
      modifies this
      ensures clients == Evict(old(clients), now)
      ensures forall key :: key in clients <==> key in old(clients) && old(clients)[key].lastSeen >= now - 600.0
    {
      var cutoff := now - IDLE_LIMIT;
      var todo := clients.Keys;
      while todo != {}
        invariant todo <= clients.Keys <= old(clients).Keys
        invariant forall key | key in clients :: clients[key] == old(clients)[key]
        invariant forall key | key in old(clients) && key !in todo ::
                    key in clients <==> old(clients)[key].lastSeen >= cutoff
        decreases todo
      {
        var key :| key in todo;
        todo := todo - {key};
        if clients[key].lastSeen < cutoff {
          clients := clients - {key};
        }
      }
    }
  }

  // ----- runs

  datatype Event = Request(key: string, at: real) | CleanupTick(at: real)

  /** What the limiter answered, request by request. */
  datatype Decision = Decision(key: string, at: real, allowed: bool)

  datatype State = State(clients: Clients, log: seq<Decision>)

  function Run(limits: Limits, events: seq<Event>): State {
    if events == [] then State(map[], []) else
      var s := Run(limits, events[..|events| - 1]);
      match events[|events| - 1]
      case Request(key, at) =>
        State(Admit(s.clients, limits, key, at),
              s.log + [Decision(key, at, Allowed(s.clients, limits, key, at))])
      case CleanupTick(at) =>
        State(Evict(s.clients, at), s.log)
  }

  /** The same history without clean-up. */
  function Requests(events: seq<Event>): seq<Event> {
    if events == [] then [] else
      var rest := Requests(events[..|events| - 1]);
      if events[|events| - 1].Request? then rest + [events[|events| - 1]] else rest
  }

  /** Requests of `key` that were let through at position `from` of the log or later. */
  function Spent(log: seq<Decision>, key: string, from: nat): nat {
    if |log| <= from then 0 else
      var last := log[|log| - 1];
      Spent(log[..|log| - 1], key, from) + if last.key == key && last.allowed then 1 else 0
  }

  /** The sliding-window specification: a request is allowed if, counted from any earlier request of
      the same key or from the request itself, it does not exceed the burst plus what the rate grants. */
  ghost predicate WindowAllows(limits: Limits, log: seq<Decision>, key: string, now: real) {
    && 1.0 <= limits.burst
    && forall i | 0 <= i < |log| && log[i].key == key :: WithinWindow(limits, log, key, now, i)
  }

  ghost predicate WithinWindow(limits: Limits, log: seq<Decision>, key: string, now: real, i: nat)
    requires i < |log|
  {
    Spent(log, key, i) as real + 1.0 <= limits.burst + Refill(limits, now - log[i].at)
  }

  /** What is left, at the instant of the table entry, of the window that starts at log position i. */
  ghost function Slack(limits: Limits, log: seq<Decision>, key: string, lastSeen: real, i: nat): real
    requires i < |log|
  {
    limits.burst + Refill(limits, lastSeen - log[i].at) - Spent(log, key, i) as real
  }

  /** An entry holds the least slack of all windows of its key. */
  ghost predicate TracksWindows(limits: Limits, s: State, key: string) {
    if key in s.clients then
      && (forall i | 0 <= i < |s.log| && s.log[i].key == key ::
            s.clients[key].tokens <= Slack(limits, s.log, key, s.clients[key].lastSeen, i))
      && (exists i | 0 <= i < |s.log| && s.log[i].key == key ::
            s.clients[key].tokens == Slack(limits, s.log, key, s.clients[key].lastSeen, i))
    else
      forall i | 0 <= i < |s.log| :: s.log[i].key != key
  }

  lemma SpentAfter(log: seq<Decision>, d: Decision, key: string, from: nat)
    requires from <= |log|
    ensures Spent(log + [d], key, from) == Spent(log, key, from) + if d.key == key && d.allowed then 1 else 0
    ensures Spent(log, key, |log|) == 0
  {
    assert (log + [d])[..|log|] == log;
  }

  lemma RefillAdds(limits: Limits, x: real, y: real)
    ensures Refill(limits, x + y) == Refill(limits, x) + Refill(limits, y)
    ensures Refill(limits, 0.0) == 0.0
  {
  }

  lemma RefillGrows(limits: Limits, x: real, y: real)
    requires x <= y && 0.0 <= limits.rate
    ensures Refill(limits, x) <= Refill(limits, y)
  {
  }

  /** One request keeps every entry equal to the least slack of its windows, and is answered as the
      windows say. */
  lemma RequestTracksWindows(limits: Limits, s: State, key: string, now: real)
    requires 1.0 <= limits.burst
    requires forall k :: TracksWindows(limits, s, k)
    ensures Allowed(s.clients, limits, key, now) <==> WindowAllows(limits, s.log, key, now)
    ensures var d := Decision(key, now, Allowed(s.clients, limits, key, now));
            forall k :: TracksWindows(limits, State(Admit(s.clients, limits, key, now), s.log + [d]), k)
  {
    assert TracksWindows(limits, s, key);
    OwnWindows(limits, s, key, now);
    var d := Decision(key, now, Allowed(s.clients, limits, key, now));
    var s' := State(Admit(s.clients, limits, key, now), s.log + [d]);
    forall k ensures TracksWindows(limits, s', k) {
      if k != key {
        OtherKey(limits, s, d, s', k);
      }
    }
  }

  lemma OtherKey(limits: Limits, s: State, d: Decision, s': State, k: string)
    requires TracksWindows(limits, s, k) && d.key != k
    requires s'.log == s.log + [d]
    requires k in s.clients <==> k in s'.clients
    requires k in s.clients ==> s'.clients[k] == s.clients[k]
    ensures TracksWindows(limits, s', k)
  {
    forall i | 0 <= i < |s.log| ensures Spent(s'.log, k, i) == Spent(s.log, k, i) {
      SpentAfter(s.log, d, k, i);
    }
    if k in s.clients {
      var i :| 0 <= i < |s.log| && s.log[i].key == k
               && s.clients[k].tokens == Slack(limits, s.log, k, s.clients[k].lastSeen, i);
      assert s'.log[i].key == k && s'.clients[k].tokens == Slack(limits, s'.log, k, s'.clients[k].lastSeen, i);
    }
  }

  /** With burst >= 1 the least slack decides a request exactly as the windows do. */
  lemma WindowsDecide(limits: Limits, s: State, key: string, now: real)
    requires 1.0 <= limits.burst
    requires TracksWindows(limits, s, key)
    ensures Allowed(s.clients, limits, key, now) <==> WindowAllows(limits, s.log, key, now)
  {
    if key in s.clients {
      var e := s.clients[key];
      forall i | 0 <= i < |s.log| && s.log[i].key == key
        ensures WithinWindow(limits, s.log, key, now, i) <==>
                1.0 <= Slack(limits, s.log, key, e.lastSeen, i) + Refill(limits, now - e.lastSeen)
      {
        RefillAdds(limits, e.lastSeen - s.log[i].at, now - e.lastSeen);
      }
    }
  }

  /** How one decision changes the slack of an earlier window, and the slack of its own window. */
  lemma SlackAfter(limits: Limits, log: seq<Decision>, d: Decision, lastSeen: real)
    ensures forall i | 0 <= i < |log| ::
              Slack(limits, log + [d], d.key, d.at, i) ==
              Slack(limits, log, d.key, lastSeen, i) + Refill(limits, d.at - lastSeen) - (if d.allowed then 1.0 else 0.0)
    ensures Slack(limits, log + [d], d.key, d.at, |log|) == limits.burst - if d.allowed then 1.0 else 0.0
  {
    hide Refill, Spent;
    forall i | 0 <= i < |log|
      ensures Slack(limits, log + [d], d.key, d.at, i) ==
              Slack(limits, log, d.key, lastSeen, i) + Refill(limits, d.at - lastSeen) - (if d.allowed then 1.0 else 0.0)
    {
      SpentAfter(log, d, d.key, i);
      RefillAdds(limits, lastSeen - log[i].at, d.at - lastSeen);
    }
    SpentAfter(log, d, d.key, |log|);
    RefillAdds(limits, 0.0, 0.0);
  }

  lemma OwnWindows(limits: Limits, s: State, key: string, now: real)
    requires 1.0 <= limits.burst
    requires TracksWindows(limits, s, key)
    ensures Allowed(s.clients, limits, key, now) <==> WindowAllows(limits, s.log, key, now)
    ensures var d := Decision(key, now, Allowed(s.clients, limits, key, now));
            TracksWindows(limits, State(Admit(s.clients, limits, key, now), s.log + [d]), key)
  {
    WindowsDecide(limits, s, key, now);
    hide Refill, Slack, Spent, WindowAllows;
    var d := Decision(key, now, Allowed(s.clients, limits, key, now));
    var s' := State(Admit(s.clients, limits, key, now), s.log + [d]);
    var n := |s.log|;
    if key in s.clients {
      var lastSeen := s.clients[key].lastSeen;
      SlackAfter(limits, s.log, d, lastSeen);
      var i :| 0 <= i < n && s.log[i].key == key
               && s.clients[key].tokens == Slack(limits, s.log, key, lastSeen, i);
      var least := if Available(s.clients, limits, key, now) == limits.burst then n else i;
      assert s'.log[least].key == key && s'.clients[key].tokens == Slack(limits, s'.log, key, now, least);
    } else {
      SlackAfter(limits, s.log, d, now);
      assert s'.log[n].key == key && s'.clients[key].tokens == Slack(limits, s'.log, key, now, n);
    }
  }

  ghost predicate NoTicks(events: seq<Event>) {
    forall i | 0 <= i < |events| :: events[i].Request?
  }

  ghost predicate Ordered(events: seq<Event>) {
    forall i, j | 0 <= i < j < |events| :: events[i].at <= events[j].at
  }

  /** Every decision in the log is the one the windows over the earlier decisions prescribe. */
  ghost predicate DecidedByWindows(limits: Limits, log: seq<Decision>) {
    forall n | 0 <= n < |log| ::
      log[n].allowed <==> WindowAllows(limits, log[..n], log[n].key, log[n].at)
  }

  /** Without clean-up the O(1) bucket is the sliding-window limiter, for any rate and any clock. */
  lemma {:induction false} BucketIsWindow(limits: Limits, events: seq<Event>)
    requires 1.0 <= limits.burst && NoTicks(events)
    ensures forall key :: TracksWindows(limits, Run(limits, events), key)
    ensures DecidedByWindows(limits, Run(limits, events).log)
  {
    if events != [] {
      var last := events[|events| - 1];
      BucketIsWindow(limits, events[..|events| - 1]);
      var s := Run(limits, events[..|events| - 1]);
      RequestTracksWindows(limits, s, last.key, last.at);
      var log := Run(limits, events).log;
      forall n | 0 <= n < |log|
        ensures log[n].allowed <==> WindowAllows(limits, log[..n], log[n].key, log[n].at)
      {
        assert log[..n] == s.log[..n];
        assert s.log[..|s.log|] == s.log;
      }
    }
  }

  /** burst >= 1 is exactly what the equivalence needs: with less, the very first request of a key is
      let through although no window allows it. */
  lemma BurstBelowOneIsNotWindow(limits: Limits, key: string, at: real)
    requires limits.burst < 1.0
    ensures !DecidedByWindows(limits, Run(limits, [Request(key, at)]).log)
  {
    var events := [Request(key, at)];
    assert events[..|events| - 1] == [];
    assert Run(limits, []) == State(map[], []);
    var log := Run(limits, events).log;
    assert log[0].allowed && !WindowAllows(limits, log[..0], key, at);
  }

  ghost predicate Chronological(log: seq<Decision>) {
    forall i, j | 0 <= i < j < |log| :: log[i].at <= log[j].at
  }

  lemma PrefixDecided(limits: Limits, log: seq<Decision>, n: nat)
    requires n <= |log| && DecidedByWindows(limits, log)
    ensures DecidedByWindows(limits, log[..n])
  {
    forall i | 0 <= i < n
      ensures log[i].allowed <==> WindowAllows(limits, log[..n][..i], log[i].key, log[i].at)
    {
      assert log[..n][..i] == log[..i];
    }
  }

  ghost predicate WithinInterval(limits: Limits, log: seq<Decision>, key: string, from: nat)
    requires from < |log|
  {
    Spent(log, key, from) as real <= limits.burst + Refill(limits, log[|log| - 1].at - log[from].at)
  }

  /** Any interval, of whatever length and position, admits at most burst + rate * length requests
      of one key. */
  lemma {:induction false} IntervalBound(limits: Limits, log: seq<Decision>, key: string, from: nat)
    requires 0.0 <= limits.rate && 1.0 <= limits.burst
    requires DecidedByWindows(limits, log) && Chronological(log)
    requires from < |log|
    ensures WithinInterval(limits, log, key, from)
    decreases |log|, |log| - from
  {
    hide *;
    var n := |log| - 1;
    if from == n {
      ShortestInterval(limits, log, key);
    } else if log[from].key != key {
      IntervalBound(limits, log, key, from + 1);
      EarlierStart(limits, log, key, from);
    } else if log[n].key == key && log[n].allowed {
      AllowedIsWithinWindow(limits, log, key, from);
    } else {
      PrefixDecided(limits, log, n);
      assert Chronological(log[..n]) by { PrefixChronological(log, n); }
      IntervalBound(limits, log[..n], key, from);
      LaterEnd(limits, log, key, from);
    }
  }

  lemma PrefixChronological(log: seq<Decision>, n: nat)
    requires n <= |log| && Chronological(log)
    ensures Chronological(log[..n])
  {
  }

  lemma ShortestInterval(limits: Limits, log: seq<Decision>, key: string)
    requires 1.0 <= limits.burst && log != []
    ensures WithinInterval(limits, log, key, |log| - 1)
  {
    var n := |log| - 1;
    assert log == log[..n] + [log[n]];
    SpentAfter(log[..n], log[n], key, n);
    RefillAdds(limits, 0.0, 0.0);
  }

  lemma EarlierStart(limits: Limits, log: seq<Decision>, key: string, from: nat)
    requires 0.0 <= limits.rate && Chronological(log)
    requires from + 1 < |log| && log[from].key != key
    requires WithinInterval(limits, log, key, from + 1)
    ensures WithinInterval(limits, log, key, from)
  {
    var n := |log| - 1;
    SkipOther(log, key, from);
    RefillGrows(limits, log[n].at - log[from + 1].at, log[n].at - log[from].at);
  }

  lemma LaterEnd(limits: Limits, log: seq<Decision>, key: string, from: nat)
    requires 0.0 <= limits.rate && Chronological(log)
    requires from < |log| - 1 && !(log[|log| - 1].key == key && log[|log| - 1].allowed)
    requires WithinInterval(limits, log[..|log| - 1], key, from)
    ensures WithinInterval(limits, log, key, from)
  {
    var n := |log| - 1;
    assert log == log[..n] + [log[n]];
    SpentAfter(log[..n], log[n], key, from);
    RefillGrows(limits, log[n - 1].at - log[from].at, log[n].at - log[from].at);
  }

  lemma AllowedIsWithinWindow(limits: Limits, log: seq<Decision>, key: string, from: nat)
    requires DecidedByWindows(limits, log)
    requires from < |log| - 1 && log[from].key == key
    requires log[|log| - 1].key == key && log[|log| - 1].allowed
    ensures WithinInterval(limits, log, key, from)
  {
    hide Spent, Slack;
    var n := |log| - 1;
    assert log == log[..n] + [log[n]];
    SpentAfter(log[..n], log[n], key, from);
    assert WindowAllows(limits, log[..n], key, log[n].at);
    assert WithinWindow(limits, log[..n], key, log[n].at, from);
  }

  lemma {:induction false} SkipOther(log: seq<Decision>, key: string, from: nat)
    requires from < |log| && log[from].key != key
    ensures Spent(log, key, from) == Spent(log, key, from + 1)
  {
    if from + 1 < |log| {
      SkipOther(log[..|log| - 1], key, from);
    }
  }

  // ----- eviction

  /** `kept` differs from `full` only in clients whose bucket has filled up again. */
  ghost predicate ForgetsOnlyFull(limits: Limits, kept: Clients, full: Clients, clock: real) {
    && (forall k | k in kept :: k in full && full[k] == kept[k])
    && (forall k | k in full ::
          && 0.0 <= full[k].tokens && full[k].lastSeen <= clock
          && (k !in kept ==> limits.burst <= full[k].tokens + Refill(limits, clock - full[k].lastSeen)))
  }

  lemma ClockAdvances(limits: Limits, kept: Clients, full: Clients, clock: real, now: real)
    requires 0.0 <= limits.rate && clock <= now
    requires ForgetsOnlyFull(limits, kept, full, clock)
    ensures ForgetsOnlyFull(limits, kept, full, now)
  {
    forall k | k in full && k !in kept
      ensures limits.burst <= full[k].tokens + Refill(limits, now - full[k].lastSeen)
    {
      RefillGrows(limits, clock - full[k].lastSeen, now - full[k].lastSeen);
    }
  }

  lemma AdmitForgetsOnlyFull(limits: Limits, kept: Clients, full: Clients, key: string, now: real)
    requires 0.0 <= limits.rate && 1.0 <= limits.burst
    requires ForgetsOnlyFull(limits, kept, full, now)
    ensures Allowed(kept, limits, key, now) == Allowed(full, limits, key, now)
    ensures ForgetsOnlyFull(limits, Admit(kept, limits, key, now), Admit(full, limits, key, now), now)
  {
    assert Available(kept, limits, key, now) == Available(full, limits, key, now);
    if key in full {
      RefillGrows(limits, 0.0, now - full[key].lastSeen);
    }
  }

  lemma EvictForgetsOnlyFull(limits: Limits, kept: Clients, full: Clients, now: real)
    requires limits.burst <= Refill(limits, IDLE_LIMIT) && 0.0 <= limits.rate
    requires ForgetsOnlyFull(limits, kept, full, now)
    ensures ForgetsOnlyFull(limits, Evict(kept, now), full, now)
  {
    forall k | k in full && k in kept && k !in Evict(kept, now)
      ensures limits.burst <= full[k].tokens + Refill(limits, now - full[k].lastSeen)
    {
      RefillGrows(limits, IDLE_LIMIT, now - full[k].lastSeen);
    }
  }

  /** If an idle bucket refills within ten minutes, clean-up never changes an answer. */
  lemma {:induction false} EvictionInvisible(limits: Limits, events: seq<Event>)
    requires 1.0 <= limits.burst <= Refill(limits, IDLE_LIMIT)
    requires 0.0 <= limits.rate && Ordered(events)
    ensures Run(limits, events).log == Run(limits, Requests(events)).log
    ensures events != [] ==>
              ForgetsOnlyFull(limits, Run(limits, events).clients, Run(limits, Requests(events)).clients,
                              events[|events| - 1].at)
  {
    if events != [] {
      var before := events[..|events| - 1];
      var now := events[|events| - 1].at;
      EvictionInvisible(limits, before);
      var kept, full := Run(limits, before).clients, Run(limits, Requests(before)).clients;
      if before != [] {
        ClockAdvances(limits, kept, full, before[|before| - 1].at, now);
      }
      match events[|events| - 1]
      case Request(key, at) =>
        AdmitForgetsOnlyFull(limits, kept, full, key, now);
        assert Requests(events)[..|Requests(before)|] == Requests(before);
      case CleanupTick(at) =>
        EvictForgetsOnlyFull(limits, kept, full, now);
    }
  }

  lemma {:induction false} RequestsOnly(events: seq<Event>)
    ensures NoTicks(Requests(events))
    ensures NoTicks(events) ==> Requests(events) == events
  {
    if events != [] {
      RequestsOnly(events[..|events| - 1]);
    }
  }

  /** So the limiter with clean-up obeys the window specification too. */
  lemma WindowSurvivesEviction(limits: Limits, events: seq<Event>)
    requires 1.0 <= limits.burst <= Refill(limits, IDLE_LIMIT)
    requires 0.0 <= limits.rate && Ordered(events)
    ensures DecidedByWindows(limits, Run(limits, events).log)
  {
    EvictionInvisible(limits, events);
    RequestsOnly(events);
    BucketIsWindow(limits, Requests(events));
  }

  // ----- the refill condition is necessary

  function Repeat(key: string, at: real, n: nat): seq<Event> {
    seq(n, _ => Request(key, at))
  }

  /** A client without an entry gets a whole burst through at one instant. */
  lemma {:induction false} BurstGoesThrough(limits: Limits, before: seq<Event>, key: string, at: real, n: nat)
    requires n as real <= limits.burst
    requires key !in Run(limits, before).clients
    ensures AfterBurst(limits, Run(limits, before), Run(limits, before + Repeat(key, at, n)), key, at, n)
  {
    hide *;
    if n == 0 {
      assert before + Repeat(key, at, 0) == before by { EmptyRepeat(key, at); }
      NoBurst(limits, Run(limits, before), key, at);
    } else {
      BurstGoesThrough(limits, before, key, at, n - 1);
      var fewer := before + Repeat(key, at, n - 1);
      OneMoreOfBurst(limits, Run(limits, before), Run(limits, fewer), key, at, n - 1);
      RepeatOnceMore(before, key, at, n - 1);
      RunRequest(limits, fewer, key, at);
    }
  }

  lemma EmptyRepeat(key: string, at: real)
    ensures Repeat(key, at, 0) == []
  {
  }

  lemma RepeatOnceMore(before: seq<Event>, key: string, at: real, n: nat)
    ensures before + Repeat(key, at, n + 1) == before + Repeat(key, at, n) + [Request(key, at)]
  {
  }

  lemma NoBurst(limits: Limits, s: State, key: string, at: real)
    requires key !in s.clients
    ensures AfterBurst(limits, s, s, key, at, 0)
  {
  }

  lemma RunRequest(limits: Limits, events: seq<Event>, key: string, at: real)
    ensures var s := Run(limits, events);
            Run(limits, events + [Request(key, at)]) ==
            State(Admit(s.clients, limits, key, at), s.log + [Decision(key, at, Allowed(s.clients, limits, key, at))])
  {
    var all := events + [Request(key, at)];
    assert all[..|all| - 1] == events;
  }

  ghost predicate AfterBurst(limits: Limits, s: State, s': State, key: string, at: real, n: nat) {
    && Spent(s'.log, key, 0) == Spent(s.log, key, 0) + n
    && if n == 0 then key !in s'.clients
       else key in s'.clients && s'.clients[key] == Entry(limits.burst - n as real, at)
  }

  lemma OneMoreOfBurst(limits: Limits, s: State, s': State, key: string, at: real, n: nat)
    requires (n + 1) as real <= limits.burst
    requires AfterBurst(limits, s, s', key, at, n)
    ensures AfterBurst(limits, s, State(Admit(s'.clients, limits, key, at),
                                        s'.log + [Decision(key, at, Allowed(s'.clients, limits, key, at))]),
                       key, at, n + 1)
  {
    RefillAdds(limits, 0.0, 0.0);
    SpentAfter(s'.log, Decision(key, at, true), key, 0);
  }

  /** A burst at instant 0, a tick once the client is idle, and another burst. */
  function ForgottenTooSoon(key: string, burst: nat, idle: real): seq<Event> {
    Repeat(key, 0.0, burst) + [CleanupTick(idle)] + Repeat(key, idle, burst)
  }

  lemma TwoBurstsWithTick(limits: Limits, key: string, burst: nat, idle: real)
    requires 1 <= burst && limits.burst == burst as real && IDLE_LIMIT < idle
    ensures Spent(Run(limits, ForgottenTooSoon(key, burst, idle)).log, key, 0) == 2 * burst
  {
    var first := Repeat(key, 0.0, burst);
    assert [] + first == first;
    BurstGoesThrough(limits, [], key, 0.0, burst);
    var ticked := first + [CleanupTick(idle)];
    assert ticked[..|ticked| - 1] == first;
    BurstGoesThrough(limits, ticked, key, idle, burst);
  }

  lemma TwoBurstsWithoutTick(limits: Limits, key: string, burst: nat, idle: real)
    requires 0.0 <= limits.rate && 1 <= burst && limits.burst == burst as real && 0.0 <= idle
    ensures var log := Run(limits, Requests(ForgottenTooSoon(key, burst, idle))).log;
            Spent(log, key, 0) as real <= limits.burst + Refill(limits, idle)
  {
    var first, second := Repeat(key, 0.0, burst), Repeat(key, idle, burst);
    DropTick(first, idle, second);
    TickFreeInterval(limits, first + second, key);
  }

  lemma TickFreeInterval(limits: Limits, events: seq<Event>, key: string)
    requires 0.0 <= limits.rate && 1.0 <= limits.burst
    requires NoTicks(events) && Ordered(events) && events != []
    ensures var log := Run(limits, events).log;
            Spent(log, key, 0) as real <= limits.burst + Refill(limits, events[|events| - 1].at - events[0].at)
  {
    hide Run, Spent, Refill, DecidedByWindows, TracksWindows;
    BucketIsWindow(limits, events);
    LogOfRequests(limits, events);
    IntervalBound(limits, Run(limits, events).log, key, 0);
  }

  /** If the bucket needs longer than ten minutes to refill, clean-up hands out a second burst early:
      with an integral burst, as the constructor takes it, the condition above is also necessary. */
  lemma SlowRefillMakesEvictionVisible(limits: Limits, burst: nat, idle: real, key: string)
    requires 0.0 <= limits.rate && 1 <= burst && limits.burst == burst as real
    requires IDLE_LIMIT < idle && Refill(limits, idle) < limits.burst
    ensures var events := ForgottenTooSoon(key, burst, idle);
            Ordered(events) && Run(limits, events).log != Run(limits, Requests(events)).log
  {
    hide Run, Requests, Refill, Spent;
    TwoBurstsWithTick(limits, key, burst, idle);
    TwoBurstsWithoutTick(limits, key, burst, idle);
  }

  lemma {:induction false} LogOfRequests(limits: Limits, events: seq<Event>)
    requires NoTicks(events)
    ensures var log := Run(limits, events).log;
            |log| == |events| && forall i | 0 <= i < |events| :: log[i].at == events[i].at
  {
    if events != [] {
      LogOfRequests(limits, events[..|events| - 1]);
    }
  }

  lemma {:induction false} DropTick(first: seq<Event>, at: real, second: seq<Event>)
    requires NoTicks(first) && NoTicks(second)
    ensures Requests(first + [CleanupTick(at)] + second) == first + second
  {
    var all := first + [CleanupTick(at)] + second;
    if second == [] {
      assert all[..|all| - 1] == first;
      RequestsOnly(first);
    } else {
      DropTick(first, at, second[..|second| - 1]);
      assert all[..|all| - 1] == first + [CleanupTick(at)] + second[..|second| - 1];
    }
  }

  ghost predicate EvictionNeverVisible(limits: Limits) {
    forall events :: Ordered(events) ==> Run(limits, events).log == Run(limits, Requests(events)).log
  }

  /** A client that is refused ten minutes later would have been forgotten, and let through. */
  lemma RefusedUnlessForgotten(limits: Limits, first: seq<Event>, idle: real, key: string)
    requires NoTicks(first) && IDLE_LIMIT < idle
    requires var s := Run(limits, first);
             && key in s.clients && s.clients[key].lastSeen == 0.0
             && (limits.burst < 1.0 || s.clients[key].tokens + Refill(limits, idle) < 1.0)
    ensures var events := first + [CleanupTick(idle)] + [Request(key, idle)];
            Run(limits, events).log != Run(limits, Requests(events)).log
  {
    hide Refill;
    var ticked, second := first + [CleanupTick(idle)], [Request(key, idle)];
    DropTick(first, idle, second);
    RunRequest(limits, first, key, idle);
    RunRequest(limits, ticked, key, idle);
    assert ticked[..|ticked| - 1] == first;
    var s, n := Run(limits, first), |Run(limits, first).log|;
    assert !Allowed(s.clients, limits, key, idle);
    assert Run(limits, ticked) == State(Evict(s.clients, idle), s.log);
    hide Run;
    assert Run(limits, ticked + second).log[n].allowed && !Run(limits, first + second).log[n].allowed;
  }

  /** If no idle time ever refills the bucket, the first request after a burst shows the eviction. */
  lemma NoRefillMakesEvictionVisible(limits: Limits, burst: int, key: string) returns (events: seq<Event>)
    requires limits.burst == burst as real && (burst < 1 || limits.rate < 0.0)
    ensures Ordered(events) && Run(limits, events).log != Run(limits, Requests(events)).log
  {
    var idle, n := IDLE_LIMIT + 1.0, if burst < 1 then 1 else burst;
    var first := Repeat(key, 0.0, n);
    assert [] + first == first;
    assert Run(limits, []) == State(map[], []);
    if burst < 1 {
      RepeatOnceMore([], key, 0.0, 0);
      EmptyRepeat(key, 0.0);
      RunRequest(limits, [], key, 0.0);
      assert first == [Request(key, 0.0)] && [] + [Request(key, 0.0)] == first;
    } else {
      BurstGoesThrough(limits, [], key, 0.0, n);
      RefillFalls(limits, idle);
    }
    hide Run, Refill;
    RefusedUnlessForgotten(limits, first, idle, key);
    events := first + [CleanupTick(idle)] + [Request(key, idle)];
  }

  lemma RefillFalls(limits: Limits, elapsed: real)
    requires limits.rate < 0.0 < elapsed
    ensures Refill(limits, elapsed) < 0.0
  {
  }

  lemma RefillNeedsRate(limits: Limits)
    requires 1.0 <= Refill(limits, IDLE_LIMIT)
    ensures limits.rate > 0.0
  {
  }

  /** Clean-up is invisible in every run if and only if the burst is at least 1 and an empty bucket
      refills in ten minutes. */
  lemma EvictionInvisibleIff(limits: Limits, burst: int)
    requires limits.burst == burst as real
    ensures EvictionNeverVisible(limits) <==> 1.0 <= limits.burst <= 600.0 * limits.rate
  {
    assert Refill(limits, IDLE_LIMIT) == 600.0 * limits.rate;
    if 1.0 <= limits.burst <= Refill(limits, IDLE_LIMIT) {
      RefillNeedsRate(limits);
      forall events: seq<Event> | Ordered(events)
        ensures Run(limits, events).log == Run(limits, Requests(events)).log
      {
        EvictionInvisible(limits, events);
      }
    } else if burst < 1 || limits.rate < 0.0 {
      var events := NoRefillMakesEvictionVisible(limits, burst, "peer");
    } else {
      var idle := if limits.rate == 0.0 then IDLE_LIMIT + 1.0 else (IDLE_LIMIT + limits.burst / limits.rate) / 2.0;
      IdleTimeExists(limits, idle);
      SlowRefillMakesEvictionVisible(limits, burst, idle, "peer");
    }
  }

  lemma IdleTimeExists(limits: Limits, idle: real)
    requires 0.0 <= limits.rate && 1.0 <= limits.burst && Refill(limits, IDLE_LIMIT) < limits.burst
    requires idle == if limits.rate == 0.0 then IDLE_LIMIT + 1.0 else (IDLE_LIMIT + limits.burst / limits.rate) / 2.0
    ensures IDLE_LIMIT < idle && Refill(limits, idle) < limits.burst
  {
    if limits.rate > 0.0 {
      var q := limits.burst / limits.rate;
      assert Refill(limits, q) == limits.burst;
      if q <= IDLE_LIMIT {
        RefillGrows(limits, q, IDLE_LIMIT);
        assert false;
      }
      assert Refill(limits, idle) == (Refill(limits, IDLE_LIMIT) + Refill(limits, q)) / 2.0;
    }
  }
}
