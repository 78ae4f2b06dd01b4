/** What the answers of the collector mean for the recorded events themselves: which events are in the
    window, which kinds are counted where, and what the latency figures say. */
module MetricsMeaning {
  import opened Common
  import opened Collectors
  import opened Percentiles

  /** The positions of the events with property p. */
  ghost function Places(events: seq<Event>, p: Event -> bool): set<int> {
    set i | 0 <= i < |events| && p(events[i])
  }

  lemma PlacesOfOneMore(events: seq<Event>, p: Event -> bool)
    requires events != []
    ensures var n := |events| - 1;
            |Places(events, p)| == |Places(events[..n], p)| + if p(events[n]) then 1 else 0
  {
    var n := |events| - 1;
    var fewer := Places(events[..n], p);
    assert n !in fewer;
    assert Places(events, p) == if p(events[n]) then fewer + {n} else fewer;
  }

  // ----- the window

  /** Increasing positions that are exactly those of the events after the cutoff, with these events. */
  ghost predicate AreLivePlaces(events: seq<Event>, cutoff: real, places: seq<int>, live: seq<Event>) {
    && |live| == |places|
    && (forall k, l | 0 <= k < l < |places| :: places[k] < places[l])
    && (forall i :: i in places <==> 0 <= i < |events| && events[i].timestamp > cutoff)
    && (forall k | 0 <= k < |places| :: 0 <= places[k] < |events| && live[k] == events[places[k]])
  }

  lemma {:induction false} LiveEvents(events: seq<Event>, cutoff: real) returns (places: seq<int>)
    ensures AreLivePlaces(events, cutoff, places, Live(events, cutoff))
  {
    if events == [] {
      places := [];
    } else {
      var n := |events| - 1;
      var before := LiveEvents(events[..n], cutoff);
      hide AreLivePlaces;
      places := if events[n].timestamp > cutoff then before + [n] else before;
      OneMorePlace(events, cutoff, before, Live(events[..n], cutoff));
    }
  }

  lemma OneMorePlace(events: seq<Event>, cutoff: real, places: seq<int>, live: seq<Event>)
    requires events != [] && AreLivePlaces(events[..|events| - 1], cutoff, places, live)
    ensures var n := |events| - 1;
            if events[n].timestamp > cutoff then AreLivePlaces(events, cutoff, places + [n], live + [events[n]])
            else AreLivePlaces(events, cutoff, places, live)
  {
    var n := |events| - 1;
    assert forall k | 0 <= k < |places| :: places[k] in places && places[k] < n;
    assert forall i :: i in places + [n] <==> i in places || i == n;
  }

  /** An answer is about exactly the events of the node whose timestamps lie after the cutoff, all of them
      in their order; there is no answer iff there is no such event. */
  lemma AnswerIsAboutWindow(log: Log, node: NodeId, cutoff: real) returns (places: seq<int>, live: seq<Event>)
    ensures AreLivePlaces(if node in log then log[node] else [], cutoff, places, live)
    ensures MetricsAt(log, node, cutoff) == if places == [] then None else Some(MetricsOf(node, live))
    ensures live != [] ==>
              var m := MetricsOf(node, live);
              m.node == node && m.totalEvents == |places|
              && m.windowStart == live[0].timestamp && m.windowEnd == live[|live| - 1].timestamp
  {
    live := Live(EventsOf(log, node), cutoff);
    places := LiveEvents(EventsOf(log, node), cutoff);
  }

  // ----- the counters

  lemma {:induction false} CountIsPlaces(events: seq<Event>, kinds: set<EventType>, p: Event -> bool)
    requires forall e: Event :: p(e) <==> e.kind in kinds
    ensures Count(events, kinds) == |Places(events, p)|
  {
    if events == [] {
      assert Places(events, p) == {};
    } else {
      CountIsPlaces(events[..|events| - 1], kinds, p);
      PlacesOfOneMore(events, p);
    }
  }

  /** Which kinds of events each counter counts. */
  lemma CountersMean(node: NodeId, events: seq<Event>)
    requires events != []
    ensures var m := MetricsOf(node, events);
            && m.successes == |Places(events, (e: Event) => e.kind == RelaySuccess || e.kind == PingSuccess)|
            && m.failures == |Places(events, (e: Event) => e.kind == RelayFailure || e.kind == PingFailure || e.kind == RelayTimeout)|
            && m.timeouts == |Places(events, (e: Event) => e.kind == RelayTimeout)|
            && m.reroutes == |Places(events, (e: Event) => e.kind == RerouteEvent)|
            && m.circuitOpens == |Places(events, (e: Event) => e.kind == CircuitOpen)|
  {
    hide Places, Count;
    CountIsPlaces(events, SUCCESS, (e: Event) => e.kind == RelaySuccess || e.kind == PingSuccess);
    CountIsPlaces(events, FAILURE,
                  (e: Event) => e.kind == RelayFailure || e.kind == PingFailure || e.kind == RelayTimeout);
    CountIsPlaces(events, {RelayTimeout}, (e: Event) => e.kind == RelayTimeout);
    CountIsPlaces(events, {RerouteEvent}, (e: Event) => e.kind == RerouteEvent);
    CountIsPlaces(events, {CircuitOpen}, (e: Event) => e.kind == CircuitOpen);
  }

  lemma {:induction false} PlacesExtremes(events: seq<Event>, p: Event -> bool)
    ensures |Places(events, p)| == 0 <==> forall e: Event | e in events :: !p(e)
    ensures |Places(events, p)| <= |events|
    ensures |Places(events, p)| == |events| <==> forall e: Event | e in events :: p(e)
  {
    if events == [] {
      assert Places(events, p) == {};
    } else {
      var n := |events| - 1;
      PlacesExtremes(events[..n], p);
      PlacesOfOneMore(events, p);
      assert forall e: Event :: e in events <==> e in events[..n] || e == events[n];
    }
  }

  lemma RatioExtremes(a: nat, n: nat)
    requires n > 0 && a <= n
    ensures Ratio(a, n) == 0.0 <==> a == 0
    ensures Ratio(a, n) == 1.0 <==> a == n
  {
    var q := Ratio(a, n);
    assert q * n as real == a as real;
  }

  /** A node is fully up iff nothing failed, and down iff nothing else happened. */
  lemma UptimeExtremes(node: NodeId, events: seq<Event>)
    requires events != []
    ensures MetricsOf(node, events).uptime == 1.0 <==>
              forall e: Event | e in events :: e.kind != RelayFailure && e.kind != PingFailure && e.kind != RelayTimeout
    ensures MetricsOf(node, events).uptime == 0.0 <==>
              forall e: Event | e in events :: e.kind == RelayFailure || e.kind == PingFailure || e.kind == RelayTimeout
  {
    CountersMean(node, events);
    PlacesExtremes(events, (e: Event) => e.kind == RelayFailure || e.kind == PingFailure || e.kind == RelayTimeout);
    RatioExtremes(Count(events, FAILURE), |events|);
    hide Count, Places, Ratio;
  }

  // ----- the latencies

  lemma {:induction false} LatenciesArePlaces(events: seq<Event>, v: int)
    ensures |Latencies(events)| == |Places(events, (e: Event) => e.latencyMs > 0)|
    ensures CountUpTo(Latencies(events), v) == |Places(events, (e: Event) => 0 < e.latencyMs <= v)|
    ensures v in Latencies(events) <==> v > 0 && exists e: Event :: e in events && e.latencyMs == v
  {
    if events == [] {
      assert Places(events, (e: Event) => e.latencyMs > 0) == {} == Places(events, (e: Event) => 0 < e.latencyMs <= v);
    } else {
      var n := |events| - 1;
      var rest := Latencies(events[..n]);
      LatenciesArePlaces(events[..n], v);
      PlacesOfOneMore(events, (e: Event) => e.latencyMs > 0);
      PlacesOfOneMore(events, (e: Event) => 0 < e.latencyMs <= v);
      assert (rest + [events[n].latencyMs])[..|rest|] == rest;
      assert forall e: Event :: e in events <==> e in events[..n] || e == events[n];
      hide Places;
    }
  }

  /** The latency figures in terms of the events: only positive latencies count, the extremes are those of
      some events, and P95 is the least of them that at least 95 percent do not exceed. */
  lemma LatencyFiguresMean(node: NodeId, events: seq<Event>, e: Event)
    requires e in events && e.latencyMs > 0
    ensures var m, n := MetricsOf(node, events), |Places(events, (e: Event) => e.latencyMs > 0)|;
            && m.minLatencyMs <= e.latencyMs <= m.maxLatencyMs
            && 100 * |Places(events, (e: Event) => 0 < e.latencyMs <= m.p95LatencyMs)| >= 95 * n
            && (e.latencyMs < m.p95LatencyMs ==> 100 * |Places(events, (x: Event) => 0 < x.latencyMs <= e.latencyMs)| < 95 * n)
    ensures var m := MetricsOf(node, events);
            && m.minLatencyMs > 0 && (exists x: Event :: x in events && x.latencyMs == m.minLatencyMs)
            && m.maxLatencyMs > 0 && (exists x: Event :: x in events && x.latencyMs == m.maxLatencyMs)
            && m.p95LatencyMs > 0 && (exists x: Event :: x in events && x.latencyMs == m.p95LatencyMs)
  {
    MetricsConserveEvents(node, events);
    var m, latencies := MetricsOf(node, events), Latencies(events);
    LatenciesArePlaces(events, e.latencyMs);
    LatenciesArePlaces(events, m.minLatencyMs);
    LatenciesArePlaces(events, m.maxLatencyMs);
    LatenciesArePlaces(events, m.p95LatencyMs);
    hide MetricsOf, Latencies, CountUpTo, Places;
  }

  lemma {:induction false} NoLatencies(events: seq<Event>)
    requires forall e: Event | e in events :: e.latencyMs <= 0
    ensures Latencies(events) == []
  {
    if events != [] {
      NoLatencies(events[..|events| - 1]);
      assert events[|events| - 1] in events;
    }
  }

  /** Without a positive latency all of them are zero. */
  lemma NoLatencyFigures(node: NodeId, events: seq<Event>)
    requires events != [] && forall e: Event | e in events :: e.latencyMs <= 0
    ensures var m := MetricsOf(node, events);
            m.avgLatencyMs == 0.0 && m.minLatencyMs == 0 && m.maxLatencyMs == 0 && m.p95LatencyMs == 0
  {
    NoLatencies(events);
    hide Latencies;
  }

  // ----- the sums

  /** The bytes of all events are added up, whatever their kind, and shared among the successes. */
  lemma BytesOfOneMore(node: NodeId, events: seq<Event>, e: Event)
    ensures var m := MetricsOf(node, events + [e]);
            && m.totalBytes == (if events == [] then 0 else MetricsOf(node, events).totalBytes) + e.dataBytes
            && m.avgBytesPerOp * m.successes as real == (if m.successes > 0 then m.totalBytes as real else 0.0)
  {
    TotalBytesOfOneMore(events, e);
    Figures(node, events + [e]);
    if events != [] {
      Figures(node, events);
    }
    hide *;
    var m := MetricsOf(node, events + [e]);
    if m.successes > 0 {
      RatioTimes(m.totalBytes, m.successes);
    }
  }

  lemma TotalBytesOfOneMore(events: seq<Event>, e: Event)
    ensures TotalBytes(events + [e]) == TotalBytes(events) + e.dataBytes
    ensures TotalBytes([]) == 0
  {
    assert (events + [e])[..|events|] == events;
  }

  lemma Figures(node: NodeId, events: seq<Event>)
    requires events != []
    ensures var m, latencies := MetricsOf(node, events), Latencies(events);
            && m.successes >= 0 && m.totalBytes == TotalBytes(events)
            && m.avgBytesPerOp == (if m.successes > 0 then Ratio(m.totalBytes, m.successes) else 0.0)
            && m.avgLatencyMs == (if latencies == [] then 0.0 else Ratio(Sum(latencies), |latencies|))
  {
    hide Ratio, PercentileOf, Count, Latencies, TotalBytes, Sum, Least, Greatest;
  }

  /** The average latency times the number of positive latencies is their sum. */
  lemma LatencyOfOneMore(node: NodeId, events: seq<Event>, e: Event)
    ensures MetricsOf(node, events + [e]).avgLatencyMs * |Places(events + [e], (x: Event) => x.latencyMs > 0)| as real ==
            (if events == [] then 0.0
             else MetricsOf(node, events).avgLatencyMs * |Places(events, (x: Event) => x.latencyMs > 0)| as real)
            + (if e.latencyMs > 0 then e.latencyMs as real else 0.0)
  {
    hide *;
    AverageTimesPlaces(node, events);
    AverageTimesPlaces(node, events + [e]);
    LatencySumOfOneMore(events, e);
  }

  lemma LatencySumOfOneMore(events: seq<Event>, e: Event)
    ensures Sum(Latencies(events + [e])) == Sum(Latencies(events)) + if e.latencyMs > 0 then e.latencyMs else 0
    ensures Sum(Latencies([])) == 0
  {
    assert (events + [e])[..|events|] == events;
    var rest := Latencies(events);
    assert (rest + [e.latencyMs])[..|rest|] == rest;
  }

  lemma AverageTimesPlaces(node: NodeId, events: seq<Event>)
    ensures events != [] ==>
              MetricsOf(node, events).avgLatencyMs * |Places(events, (x: Event) => x.latencyMs > 0)| as real
              == Sum(Latencies(events)) as real
  {
    hide *;
    if events != [] {
      LatenciesArePlaces(events, 0);
      Figures(node, events);
      AverageTimesCount(MetricsOf(node, events).avgLatencyMs, Latencies(events),
                        |Places(events, (x: Event) => x.latencyMs > 0)|);
    }
  }

  lemma AverageTimesCount(avg: real, latencies: seq<int>, n: nat)
    requires n == |latencies|
    requires avg == if latencies == [] then 0.0 else Ratio(Sum(latencies), |latencies|)
    ensures avg * n as real == Sum(latencies) as real
  {
    if n > 0 {
      RatioTimes(Sum(latencies), n);
    }
  }

  lemma RatioTimes(a: int, n: nat)
    requires n > 0
    ensures Ratio(a, n) * n as real == a as real
  {
  }
}
