/** internal/intelligence/collector.go: the bounded event log and the metrics computed from it.

    Instants are measured from Go's zero time, so a timestamp is "zero" when it equals 0.0. */
module Collectors {
  import opened Common
  import opened Percentiles

  datatype EventType =
    | RelaySuccess | RelayFailure | RelayTimeout | PingSuccess | PingFailure | RerouteEvent | CircuitOpen

  const MAX_INT64: int := 0x7FFF_FFFF_FFFF_FFFF
  type Int64 = x: int | -MAX_INT64 - 1 <= x <= MAX_INT64

  datatype Event = Event(node: NodeId, kind: EventType, latencyMs: Int64, dataBytes: Int64, timestamp: real)

  type Log = map<NodeId, seq<Event>>

  datatype NodeMetrics = NodeMetrics(
    node: NodeId,
    totalEvents: int, successes: int, failures: int, timeouts: int, reroutes: int, circuitOpens: int,
    avgLatencyMs: real, minLatencyMs: int, maxLatencyMs: int, p95LatencyMs: int,
    totalBytes: int, avgBytesPerOp: real,
    failureRate: real, uptime: real,
    windowStart: real, windowEnd: real)

  const DEFAULT_WINDOW := 600.0
  const MAX_EVENTS := 10000

  // ----- specification of the state changes

  function Last(events: seq<Event>, n: nat): seq<Event> {
    if n < |events| then events[|events| - n..] else events
  }

  function Stamped(e: Event, now: real): Event {
    if e.timestamp == 0.0 then e.(timestamp := now) else e
  }

  function EventsOf(log: Log, node: NodeId): seq<Event> {
    if node in log then log[node] else []
  }

  function Recorded(log: Log, e: Event, now: real, maxPer: nat): Log {
    if e.node == "" then log else
      log[e.node := Last(EventsOf(log, e.node) + [Stamped(e, now)], maxPer)]
  }

  /** The events from the first one after the cutoff on; later expired ones stay. */
  function FromFirstLive(events: seq<Event>, cutoff: real): seq<Event> {
    if events == [] || events[0].timestamp > cutoff then events else FromFirstLive(events[1..], cutoff)
  }

  function Pruned(log: Log, cutoff: real): Log {
    map n | n in log && FromFirstLive(log[n], cutoff) != [] :: FromFirstLive(log[n], cutoff)
  }

  /** The events inside the window. */
  function Live(events: seq<Event>, cutoff: real): seq<Event> {
    if events == [] then [] else
      var rest := Live(events[..|events| - 1], cutoff);
      if events[|events| - 1].timestamp > cutoff then rest + [events[|events| - 1]] else rest
  }

  // ----- specification of the metrics

  function Count(events: seq<Event>, kinds: set<EventType>): nat {
    if events == [] then 0 else
      Count(events[..|events| - 1], kinds) + if events[|events| - 1].kind in kinds then 1 else 0
  }

  function TotalBytes(events: seq<Event>): int {
    if events == [] then 0 else TotalBytes(events[..|events| - 1]) + events[|events| - 1].dataBytes
  }

  /** The positive latencies, in order. */
  function Latencies(events: seq<Event>): seq<int> {
    if events == [] then [] else
      var rest := Latencies(events[..|events| - 1]);
      if events[|events| - 1].latencyMs > 0 then rest + [events[|events| - 1].latencyMs] else rest
  }

  function Sum(data: seq<int>): int {
    if data == [] then 0 else Sum(data[..|data| - 1]) + data[|data| - 1]
  }

  function Least(data: seq<int>): int
    requires data != []
  {
    var last := data[|data| - 1];
    if |data| == 1 then last else
      var m := Least(data[..|data| - 1]);
      if last < m then last else m
  }

  function Greatest(data: seq<int>): int
    requires data != []
  {
    var last := data[|data| - 1];
    if |data| == 1 then last else
      var m := Greatest(data[..|data| - 1]);
      if last > m then last else m
  }

  function Ratio(a: int, b: nat): real
    requires b > 0
  {
    a as real / b as real
  }

  function LeastOr(data: seq<int>, default: int): int {
    if data == [] then default else Least(data)
  }

  function GreatestOr(data: seq<int>, default: int): int {
    if data == [] then default else Greatest(data)
  }

  const SUCCESS := {RelaySuccess, PingSuccess}
  const FAILURE := {RelayFailure, PingFailure, RelayTimeout}

  function MetricsOf(node: NodeId, events: seq<Event>): NodeMetrics
    requires events != []
  {
    var latencies := Latencies(events);
    var successes, failures := Count(events, SUCCESS), Count(events, FAILURE);
    var failureRate := Ratio(failures, |events|);
    NodeMetrics(
      node,
      |events|, successes, failures, Count(events, {RelayTimeout}), Count(events, {RerouteEvent}),
      Count(events, {CircuitOpen}),
      if latencies == [] then 0.0 else Ratio(Sum(latencies), |latencies|),
      if latencies == [] then 0 else Least(latencies),
      if latencies == [] then 0 else Greatest(latencies),
      if latencies == [] then 0 else PercentileOf(latencies, 95),
      TotalBytes(events), if successes > 0 then Ratio(TotalBytes(events), successes) else 0.0,
      failureRate, 1.0 - failureRate,
      events[0].timestamp, events[|events| - 1].timestamp)
  }

  /** The answer for one node; None is a nil result. */
  function MetricsAt(log: Log, node: NodeId, cutoff: real): Option<NodeMetrics> {
    var live := Live(EventsOf(log, node), cutoff);
    if live == [] then None else Some(MetricsOf(node, live))
  }

  /** The answers for all nodes; the clock is read anew for each of them. */
  function AllMetricsAt(log: Log, now: NodeId -> real, window: real): map<NodeId, NodeMetrics> {
    map n | n in log && MetricsAt(log, n, now(n) - window).Some? :: MetricsAt(log, n, now(n) - window).value
  }

  class Collector {
    var events: Log
    const window: real
    const maxPer: nat

    constructor (window: real)
      ensures events == map[] && maxPer == 10000
      ensures this.window == if window <= 0.0 then 600.0 else window
    {
      events := map[];
      this.window := if window <= 0.0 then DEFAULT_WINDOW else window;
      maxPer := MAX_EVENTS;
    }

    method Record(e: Event, now: real)
      modifies this
      ensures events == Recorded(old(events), e, now, maxPer)
      ensures if e.node == "" then events == old(events) else
                var evts := EventsOf(old(events), e.node) + [if e.timestamp == 0.0 then e.(timestamp := now) else e];
                events == old(events)[e.node := if |evts| > maxPer then evts[|evts| - maxPer..] else evts]
    {
      if e.node == "" {
        return;
      }
      var stamped := if e.timestamp == 0.0 then e.(timestamp := now) else e;
      var evts := if e.node in events then events[e.node] else [];
      evts := evts + [stamped];
      if |evts| > maxPer {
        evts := evts[|evts| - maxPer..];
      }
      events := events[e.node := evts];
    }

    method Prune(now: real)
      modifies this
      ensures events == Pruned(old(events), now - window)
    {
      var cutoff := now - window;
      var todo := events.Keys;
      while todo != {}
        invariant todo <= events.Keys && todo <= old(events).Keys
        invariant forall n | n in todo :: events[n] == old(events)[n]
        invariant forall n | n !in todo :: n in events <==> n in Pruned(old(events), cutoff)
        invariant forall n | n !in todo && n in events :: events[n] == Pruned(old(events), cutoff)[n]
        decreases todo
      {
        var id :| id in todo;
        todo := todo - {id};
        var evts := events[id];
        var start := FirstLive(evts, cutoff);
        if start >= |evts| {
          events := events - {id};
        } else if start > 0 {
          events := events[id := evts[start..]];
        }
      }
    }

    /** The inner loop of Prune. */
    method FirstLive(evts: seq<Event>, cutoff: real) returns (start: nat)
      ensures start <= |evts| && evts[start..] == FromFirstLive(evts, cutoff)
    {
      start := 0;
      for i := 0 to |evts|
        invariant start == 0 && (i == |evts| ==> evts == [])
        invariant FromFirstLive(evts, cutoff) == FromFirstLive(evts[i..], cutoff)
      {
        if evts[i].timestamp > cutoff {
          start := i;
          break;
        }
        assert evts[i..][1..] == evts[i + 1..];
        if i == |evts| - 1 {
          start := |evts|;
          break;
        }
      }
    }

    method Metrics(node: NodeId, now: real) returns (m: Option<NodeMetrics>)
      ensures m == MetricsAt(events, node, now - window)
    {
      var raw := if node in events then events[node] else [];
      if |raw| == 0 {
        return None;
      }
      var cutoff := now - window;
      var filtered: seq<Event> := [];
      for i := 0 to |raw|
        invariant filtered == Live(raw[..i], cutoff)
      {
        assert raw[..i + 1][..i] == raw[..i];
        if raw[i].timestamp > cutoff {
          filtered := filtered + [raw[i]];
        }
      }
      assert raw[..|raw|] == raw;
      if |filtered| == 0 {
        return None;
      }
      hide MetricsOf;
      var metrics := Aggregate(node, filtered);
      return Some(metrics);
    }

    /** The aggregation part of Metrics. */
    method Aggregate(node: NodeId, filtered: seq<Event>) returns (m: NodeMetrics)
      requires filtered != []
      ensures m == MetricsOf(node, filtered)
    {
      hide Ratio, PercentileOf, Count, Latencies, TotalBytes, Least, Greatest;
      var successes, failures, timeouts, reroutes, circuitOpens := Tally(filtered);
      var latencies, minLatency, maxLatency, totalBytes := Measure(filtered);
      var avgLatency, p95 := 0.0, 0;
      if |latencies| > 0 {
        var sum := 0;
        for i := 0 to |latencies|
          invariant sum == Sum(latencies[..i])
        {
          assert latencies[..i + 1][..i] == latencies[..i];
          sum := sum + latencies[i];
        }
        assert latencies[..|latencies|] == latencies;
        avgLatency := Ratio(sum, |latencies|);
        p95 := Percentile(latencies, 95);
      } else {
        minLatency := 0;
      }
      var failureRate := Ratio(failures, |filtered|);
      var avgBytes := 0.0;
      if successes > 0 {
        avgBytes := Ratio(totalBytes, successes);
      }
      m := NodeMetrics(
        node, |filtered|, successes, failures, timeouts, reroutes, circuitOpens,
        avgLatency, minLatency, maxLatency, p95, totalBytes, avgBytes, failureRate, 1.0 - failureRate,
        filtered[0].timestamp, filtered[|filtered| - 1].timestamp);
    }

    /** The counters of the aggregation loop. */
    method Tally(filtered: seq<Event>)
      returns (successes: int, failures: int, timeouts: int, reroutes: int, circuitOpens: int)
      ensures successes == Count(filtered, SUCCESS) && failures == Count(filtered, FAILURE)
      ensures timeouts == Count(filtered, {RelayTimeout})
      ensures reroutes == Count(filtered, {RerouteEvent}) && circuitOpens == Count(filtered, {CircuitOpen})
    {
      successes, failures, timeouts, reroutes, circuitOpens := 0, 0, 0, 0, 0;
      for i := 0 to |filtered|
        invariant successes == Count(filtered[..i], SUCCESS) && failures == Count(filtered[..i], FAILURE)
        invariant timeouts == Count(filtered[..i], {RelayTimeout})
        invariant reroutes == Count(filtered[..i], {RerouteEvent})
        invariant circuitOpens == Count(filtered[..i], {CircuitOpen})
      {
        assert filtered[..i + 1][..i] == filtered[..i];
        match filtered[i].kind
        case RelaySuccess | PingSuccess =>
          successes := successes + 1;
        case RelayFailure | PingFailure =>
          failures := failures + 1;
        case RelayTimeout =>
          timeouts := timeouts + 1;
          failures := failures + 1;
        case RerouteEvent =>
          reroutes := reroutes + 1;
        case CircuitOpen =>
          circuitOpens := circuitOpens + 1;
      }
      assert filtered[..|filtered|] == filtered;
    }

    /** The latencies and bytes of the aggregation loop. */
    method Measure(filtered: seq<Event>)
      returns (latencies: seq<int>, minLatency: int, maxLatency: int, totalBytes: int)
      ensures latencies == Latencies(filtered) && totalBytes == TotalBytes(filtered)
      ensures minLatency == LeastOr(latencies, MAX_INT64) && maxLatency == GreatestOr(latencies, 0)
    {
      latencies, minLatency, maxLatency, totalBytes := [], MAX_INT64, 0, 0;
      for i := 0 to |filtered|
        invariant latencies == Latencies(filtered[..i]) && totalBytes == TotalBytes(filtered[..i])
        invariant minLatency == LeastOr(latencies, MAX_INT64) && maxLatency == GreatestOr(latencies, 0)
      {
        var e := filtered[i];
        OneMoreMeasured(filtered, i);
        hide *;
        if e.latencyMs > 0 {
          ExtremesOfOneMore(latencies, e.latencyMs);
          latencies := latencies + [e.latencyMs];
          if e.latencyMs < minLatency {
            minLatency := e.latencyMs;
          }
          if e.latencyMs > maxLatency {
            maxLatency := e.latencyMs;
          }
        }
        totalBytes := totalBytes + e.dataBytes;
      }
      assert filtered[..|filtered|] == filtered;
    }

    method AllMetrics(now: NodeId -> real) returns (result: map<NodeId, NodeMetrics>)
      ensures result == AllMetricsAt(events, now, window)
    {
      hide MetricsAt;
      result := map[];
      var todo := events.Keys;
      while todo != {}
        invariant todo <= events.Keys
        invariant forall n :: n in result <==> n in events && n !in todo && MetricsAt(events, n, now(n) - window).Some?
        invariant forall n | n in result :: result[n] == MetricsAt(events, n, now(n) - window).value
        decreases todo
      {
        var id :| id in todo;
        todo := todo - {id};
        var m := Metrics(id, now(id));
        if m.Some? {
          result := result[id := m.value];
        }
      }
    }
  }

  lemma OneMoreMeasured(events: seq<Event>, i: nat)
    requires i < |events|
    ensures var e := events[i];
            && Latencies(events[..i + 1]) == Latencies(events[..i]) + (if e.latencyMs > 0 then [e.latencyMs] else [])
            && TotalBytes(events[..i + 1]) == TotalBytes(events[..i]) + e.dataBytes
  {
    assert events[..i + 1][..i] == events[..i];
  }

  /** How the loop updates the extremes; the start values are neutral for positive 64-bit latencies. */
  lemma ExtremesOfOneMore(data: seq<int>, x: Int64)
    requires 0 < x
    ensures var least := LeastOr(data, MAX_INT64);
            LeastOr(data + [x], MAX_INT64) == if x < least then x else least
    ensures var greatest := GreatestOr(data, 0);
            GreatestOr(data + [x], 0) == if x > greatest then x else greatest
  {
    assert (data + [x])[..|data|] == data;
  }

  // ----- pruning is invisible

  /** `kept` is `all` without some leading events, all of which have expired at `cutoff`. */
  ghost predicate LacksOnlyExpired(all: seq<Event>, kept: seq<Event>, cutoff: real) {
    && |kept| <= |all|
    && kept == all[|all| - |kept|..]
    && forall i | 0 <= i < |all| - |kept| :: all[i].timestamp <= cutoff
  }

  lemma AppendKeeps(all: seq<Event>, kept: seq<Event>, e: Event, maxPer: nat, cutoff: real)
    requires LacksOnlyExpired(all, kept, cutoff)
    ensures LacksOnlyExpired(Last(all + [e], maxPer), Last(kept + [e], maxPer), cutoff)
  {
    var k := |all| - |kept|;
    assert all + [e] == all[..k] + (kept + [e]);
    TrimKeeps(all[..k], kept + [e], maxPer, cutoff);
  }

  /** Trimming the longer log drops expired events first. */
  lemma TrimKeeps(expired: seq<Event>, kept: seq<Event>, maxPer: nat, cutoff: real)
    requires forall i | 0 <= i < |expired| :: expired[i].timestamp <= cutoff
    ensures LacksOnlyExpired(Last(expired + kept, maxPer), Last(kept, maxPer), cutoff)
  {
    var d := |expired| + |kept| - maxPer;
    if d >= |expired| {
      assert d > 0 ==> Last(expired + kept, maxPer) == Last(kept, maxPer);
    } else if d > 0 {
      assert Last(expired + kept, maxPer) == expired[d..] + kept;
    }
  }

  lemma {:induction false} PruneKeeps(all: seq<Event>, kept: seq<Event>, earlier: real, cutoff: real)
    requires LacksOnlyExpired(all, kept, cutoff) && earlier <= cutoff
    ensures LacksOnlyExpired(all, FromFirstLive(kept, earlier), cutoff)
  {
    if kept != [] && kept[0].timestamp <= earlier {
      assert all[|all| - |kept|] == kept[0];
      assert kept[1..] == all[|all| - |kept[1..]|..];
      PruneKeeps(all, kept[1..], earlier, cutoff);
    }
  }

  lemma {:induction false} LiveOfParts(a: seq<Event>, b: seq<Event>, cutoff: real)
    ensures Live(a + b, cutoff) == Live(a, cutoff) + Live(b, cutoff)
  {
    if b == [] {
      assert a + b == a;
    } else {
      LiveOfParts(a, b[..|b| - 1], cutoff);
      assert (a + b)[..|a + b| - 1] == a + b[..|b| - 1];
    }
  }

  lemma {:induction false} ExpiredHasNoLive(events: seq<Event>, cutoff: real)
    requires forall i | 0 <= i < |events| :: events[i].timestamp <= cutoff
    ensures Live(events, cutoff) == []
  {
    if events != [] {
      ExpiredHasNoLive(events[..|events| - 1], cutoff);
    }
  }

  lemma SameLive(all: seq<Event>, kept: seq<Event>, cutoff: real)
    requires LacksOnlyExpired(all, kept, cutoff)
    ensures Live(all, cutoff) == Live(kept, cutoff)
  {
    var k := |all| - |kept|;
    assert all == all[..k] + kept;
    LiveOfParts(all[..k], kept, cutoff);
    ExpiredHasNoLive(all[..k], cutoff);
  }

  lemma {:induction false} FromFirstLiveIsSuffix(events: seq<Event>, cutoff: real)
    ensures var kept := FromFirstLive(events, cutoff);
            && LacksOnlyExpired(events, kept, cutoff)
            && (kept != [] ==> kept[0].timestamp > cutoff)
  {
    if events != [] && events[0].timestamp <= cutoff {
      FromFirstLiveIsSuffix(events[1..], cutoff);
      var kept := FromFirstLive(events, cutoff);
      assert kept == events[1..][|events[1..]| - |kept|..];
      assert forall i | 1 <= i < |events| - |kept| :: events[i] == events[1..][i - 1];
    }
  }

  /** Pruning drops exactly the leading expired events of each node, and the nodes that have no others. */
  lemma PruneDropsLeadingExpired(log: Log, cutoff: real, node: NodeId)
    ensures var all, kept := EventsOf(log, node), EventsOf(Pruned(log, cutoff), node);
            && |kept| <= |all| && kept == all[|all| - |kept|..]
            && (forall i | 0 <= i < |all| - |kept| :: all[i].timestamp <= cutoff)
            && (kept != [] ==> kept[0].timestamp > cutoff)
            && (node in Pruned(log, cutoff) <==> kept != [])
  {
    PrunedAt(log, cutoff, node);
    FromFirstLiveIsSuffix(EventsOf(log, node), cutoff);
    hide EventsOf, Pruned, FromFirstLive;
  }

  lemma PrunedAt(log: Log, cutoff: real, node: NodeId)
    ensures EventsOf(Pruned(log, cutoff), node) == FromFirstLive(EventsOf(log, node), cutoff)
    ensures node in Pruned(log, cutoff) <==> FromFirstLive(EventsOf(log, node), cutoff) != []
  {
    assert FromFirstLive([], cutoff) == [];
    hide FromFirstLive;
  }

  datatype Op = RecordOp(event: Event, at: real) | PruneOp(at: real)

  function Apply(log: Log, op: Op, window: real, maxPer: nat): Log {
    match op
    case RecordOp(e, at) => Recorded(log, e, at, maxPer)
    case PruneOp(at) => Pruned(log, at - window)
  }

  function ApplyUnpruned(log: Log, op: Op, maxPer: nat): Log {
    match op
    case RecordOp(e, at) => Recorded(log, e, at, maxPer)
    case PruneOp(_) => log
  }

  /** The log after the operations, on a fresh collector. */
  function Run(ops: seq<Op>, window: real, maxPer: nat): Log {
    if ops == [] then map[] else Apply(Run(ops[..|ops| - 1], window, maxPer), ops[|ops| - 1], window, maxPer)
  }

  /** The same without the pruning. */
  function RunUnpruned(ops: seq<Op>, maxPer: nat): Log {
    if ops == [] then map[] else ApplyUnpruned(RunUnpruned(ops[..|ops| - 1], maxPer), ops[|ops| - 1], maxPer)
  }

  /** No clean-up read the clock after `now`. Nothing is said about the order in which the operations
      read the clock: the original reads it before it takes the lock. */
  ghost predicate PrunedBy(ops: seq<Op>, now: real) {
    forall op | op in ops && op.PruneOp? :: op.at <= now
  }

  ghost predicate LogLacksOnlyExpired(all: Log, kept: Log, cutoff: real) {
    forall n :: LacksOnlyExpired(EventsOf(all, n), EventsOf(kept, n), cutoff)
  }

  lemma RecordKeeps(all: Log, kept: Log, e: Event, at: real, maxPer: nat, cutoff: real)
    requires LogLacksOnlyExpired(all, kept, cutoff)
    ensures LogLacksOnlyExpired(Recorded(all, e, at, maxPer), Recorded(kept, e, at, maxPer), cutoff)
  {
    forall n
      ensures LacksOnlyExpired(EventsOf(Recorded(all, e, at, maxPer), n), EventsOf(Recorded(kept, e, at, maxPer), n), cutoff)
    {
      assert LacksOnlyExpired(EventsOf(all, n), EventsOf(kept, n), cutoff);
      hide LacksOnlyExpired, Last, Stamped;
      AppendKeeps(EventsOf(all, n), EventsOf(kept, n), Stamped(e, at), maxPer, cutoff);
    }
  }

  lemma PruneLogKeeps(all: Log, kept: Log, earlier: real, cutoff: real)
    requires LogLacksOnlyExpired(all, kept, cutoff) && earlier <= cutoff
    ensures LogLacksOnlyExpired(all, Pruned(kept, earlier), cutoff)
  {
    forall n ensures LacksOnlyExpired(EventsOf(all, n), EventsOf(Pruned(kept, earlier), n), cutoff) {
      assert LacksOnlyExpired(EventsOf(all, n), EventsOf(kept, n), cutoff);
      PruneKeeps(EventsOf(all, n), EventsOf(kept, n), earlier, cutoff);
    }
  }

  lemma OpKeeps(all: Log, kept: Log, op: Op, window: real, maxPer: nat, now: real)
    requires LogLacksOnlyExpired(all, kept, now - window)
    requires op.PruneOp? ==> op.at <= now
    ensures LogLacksOnlyExpired(ApplyUnpruned(all, op, maxPer), Apply(kept, op, window, maxPer), now - window)
  {
    hide LogLacksOnlyExpired, Recorded, Pruned;
    match op
    case RecordOp(e, at) => RecordKeeps(all, kept, e, at, maxPer, now - window);
    case PruneOp(at) => PruneLogKeeps(all, kept, at - window, now - window);
  }

  lemma {:induction false} PrunedRunLacksOnlyExpired(ops: seq<Op>, window: real, maxPer: nat, now: real)
    requires PrunedBy(ops, now)
    ensures LogLacksOnlyExpired(RunUnpruned(ops, maxPer), Run(ops, window, maxPer), now - window)
  {
    if ops != [] {
      hide LogLacksOnlyExpired, Apply, ApplyUnpruned;
      var before, op := ops[..|ops| - 1], ops[|ops| - 1];
      PrunedRunLacksOnlyExpired(before, window, maxPer, now);
      OpKeeps(RunUnpruned(before, maxPer), Run(before, window, maxPer), op, window, maxPer, now);
    }
  }

  /** Whatever is recorded and pruned in whatever order, with arbitrary timestamps and with the
      capacity limit in force, every later answer is that of a collector that never pruned. */
  lemma PruningIsInvisible(ops: seq<Op>, window: real, maxPer: nat, node: NodeId, now: real)
    requires PrunedBy(ops, now)
    ensures MetricsAt(Run(ops, window, maxPer), node, now - window)
            == MetricsAt(RunUnpruned(ops, maxPer), node, now - window)
  {
    hide Run, RunUnpruned, Live, MetricsOf;
    PrunedRunLacksOnlyExpired(ops, window, maxPer, now);
    SameLive(EventsOf(RunUnpruned(ops, maxPer), node), EventsOf(Run(ops, window, maxPer), node), now - window);
  }

  lemma PruningIsInvisibleToAll(ops: seq<Op>, window: real, maxPer: nat, now: NodeId -> real)
    requires forall n :: PrunedBy(ops, now(n))
    ensures AllMetricsAt(Run(ops, window, maxPer), now, window) == AllMetricsAt(RunUnpruned(ops, maxPer), now, window)
  {
    hide Run, RunUnpruned, MetricsAt;
    var kept, all := Run(ops, window, maxPer), RunUnpruned(ops, maxPer);
    forall n
      ensures MetricsAt(kept, n, now(n) - window) == MetricsAt(all, n, now(n) - window)
      ensures MetricsAt(kept, n, now(n) - window).Some? ==> n in kept
      ensures MetricsAt(all, n, now(n) - window).Some? ==> n in all
    {
      PruningIsInvisible(ops, window, maxPer, n, now(n));
      UnknownHasNoMetrics(kept, n, now(n) - window);
      UnknownHasNoMetrics(all, n, now(n) - window);
    }
  }

  lemma UnknownHasNoMetrics(log: Log, node: NodeId, cutoff: real)
    ensures MetricsAt(log, node, cutoff).Some? ==> node in log
  {
  }

  // ----- the metrics conserve the events

  lemma {:induction false} CountsAddUp(events: seq<Event>)
    ensures Count(events, SUCCESS) + Count(events, FAILURE) + Count(events, {RerouteEvent}) + Count(events, {CircuitOpen})
            == |events|
    ensures Count(events, {RelayTimeout}) <= Count(events, FAILURE)
  {
    if events != [] {
      CountsAddUp(events[..|events| - 1]);
      match events[|events| - 1].kind
      case RelaySuccess | PingSuccess =>
      case RelayFailure | PingFailure | RelayTimeout =>
      case RerouteEvent =>
      case CircuitOpen =>
    }
  }

  lemma {:induction false} LatencySum(data: seq<int>)
    requires data != []
    ensures Least(data) * |data| <= Sum(data) <= Greatest(data) * |data|
  {
    var n := |data| - 1;
    if n > 0 {
      LatencySum(data[..n]);
      Scale(Least(data), Least(data[..n]), n);
      Scale(Greatest(data[..n]), Greatest(data), n);
    } else {
      assert data[..0] == [];
    }
  }

  lemma Scale(x: int, y: int, n: nat)
    requires x <= y
    ensures x * n <= y * n
    ensures x * (n + 1) == x * n + x && y * (n + 1) == y * n + y
  {
  }

  lemma Average(low: int, sum: int, high: int, n: nat)
    requires n > 0 && low * n <= sum <= high * n
    ensures low as real <= Ratio(sum, n) <= high as real
  {
    assert low as real * n as real == (low * n) as real;
    assert high as real * n as real == (high * n) as real;
    var q := sum as real / n as real;
    assert q * n as real == sum as real;
  }

  lemma {:induction false} LeastIsMin(data: seq<int>)
    requires data != []
    ensures IsMin(data, Least(data)) && IsMax(data, Greatest(data))
  {
    if |data| > 1 {
      LeastIsMin(data[..|data| - 1]);
      assert data == data[..|data| - 1] + [data[|data| - 1]];
    }
  }

  ghost predicate IsMin(data: seq<int>, m: int) {
    m in data && forall x | x in data :: m <= x
  }

  ghost predicate IsMax(data: seq<int>, m: int) {
    m in data && forall x | x in data :: x <= m
  }

  /** Every event is counted exactly once, the rates are complementary fractions, and the latency
      figures are the extremes, a mean between them, and the 95th percentile. */
  lemma MetricsConserveEvents(node: NodeId, events: seq<Event>)
    requires events != []
    ensures var m := MetricsOf(node, events);
            && m.successes + m.failures + m.reroutes + m.circuitOpens == m.totalEvents == |events|
            && m.timeouts <= m.failures
            && m.failureRate + m.uptime == 1.0 && 0.0 <= m.failureRate <= 1.0
    ensures var m, latencies := MetricsOf(node, events), Latencies(events);
            latencies != [] ==>
              && IsMin(latencies, m.minLatencyMs) && IsMax(latencies, m.maxLatencyMs)
              && m.minLatencyMs as real <= m.avgLatencyMs <= m.maxLatencyMs as real
              && IsPercentile(latencies, Rank(95, |latencies|), m.p95LatencyMs)
  {
    CountsAddUp(events);
    Average(0, Count(events, FAILURE), 1, |events|);
    var latencies := Latencies(events);
    if latencies != [] {
      LeastIsMin(latencies);
      LatencySum(latencies);
      Average(Least(latencies), Sum(latencies), Greatest(latencies), |latencies|);
      PercentileIsLeast(latencies, 95);
    }
  }
}
