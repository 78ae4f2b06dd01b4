/** internal/intelligence/scorer.go: node scores, route scores and the ranking of nodes.

    The base-two logarithm is a parameter; only its sign is ever used. The textual reason of a score
    is left out. */
module Scoring {
  import opened Common
  import opened Collectors
  import opened Reals

  datatype Weights = Weights(uptime: real, latency: real, throughput: real, stability: real)

  const DEFAULT_WEIGHTS := Weights(0.40, 0.30, 0.15, 0.15)
  const MIN_EVENTS := 50.0
  const MAX_LATENCY_MS := 5000.0

  datatype ScoreResult = ScoreResult(node: NodeId, score: real, confidence: real)

  function Min(x: real, y: real): real {
    if x < y then x else y
  }

  function Max(x: real, y: real): real {
    if x < y then y else x
  }

  // ----- one node

  function LatencyScore(m: NodeMetrics): real {
    if m.avgLatencyMs > 0.0 then 1.0 - Min(m.avgLatencyMs / MAX_LATENCY_MS, 1.0) else 1.0
  }

  function ThroughputScore(m: NodeMetrics, log2: real -> real): real {
    if m.avgBytesPerOp > 0.0 then Min(log2(m.avgBytesPerOp / 1024.0 + 1.0) / 10.0, 1.0) else 0.5
  }

  function StabilityScore(m: NodeMetrics): real {
    if m.totalEvents > 0 then 1.0 - Min(Instability(m) * 5.0, 1.0) else 1.0
  }

  function WeightedSum(m: NodeMetrics, w: Weights, log2: real -> real): real {
    w.uptime * m.uptime + w.latency * LatencyScore(m) + w.throughput * ThroughputScore(m, log2)
    + w.stability * StabilityScore(m)
  }

  function ScoreFromMetrics(m: NodeMetrics, w: Weights, log2: real -> real): ScoreResult {
    ScoreResult(m.node, Max(0.0, Min(WeightedSum(m, w, log2), 1.0)), Min(m.totalEvents as real / MIN_EVENTS, 1.0))
  }

  /** With the default weights the final clamp never changes anything: for metrics that a collector
      can produce, the weighted sum is in range already. */
  lemma DefaultScoreIsWeightedSum(node: NodeId, events: seq<Event>, log2: real -> real)
    requires events != []
    requires forall x | x >= 1.0 :: log2(x) >= 0.0
    ensures var m := MetricsOf(node, events);
            var r := ScoreFromMetrics(m, DEFAULT_WEIGHTS, log2);
            0.0 <= r.score <= 1.0 && r.score == WeightedSum(m, DEFAULT_WEIGHTS, log2) && 0.0 <= r.confidence <= 1.0
  {
    MetricsConserveEvents(node, events);
    var m := MetricsOf(node, events);
    assert 0.0 <= m.uptime <= 1.0;
    LatencyScoreInRange(m);
    StabilityScoreInRange(m);
    assert 0.0 <= ThroughputScore(m, log2) <= 1.0;
    hide MetricsOf, LatencyScore, StabilityScore, ThroughputScore;
  }

  lemma LatencyScoreInRange(m: NodeMetrics)
    ensures 0.0 <= LatencyScore(m) <= 1.0
  {
  }

  lemma StabilityScoreInRange(m: NodeMetrics)
    requires m.reroutes >= 0 && m.circuitOpens >= 0
    ensures 0.0 <= StabilityScore(m) <= 1.0
  {
  }

  /** The share of reroutes and circuit opens. */
  function Instability(m: NodeMetrics): real {
    if m.totalEvents > 0 then (m.reroutes + m.circuitOpens) as real / m.totalEvents as real else 0.0
  }

  /** `better` is no worse than m in uptime, latency, bytes per operation and stability. */
  ghost predicate NoWorse(better: NodeMetrics, m: NodeMetrics) {
    && m.uptime <= better.uptime
    && better.avgLatencyMs <= m.avgLatencyMs
    && m.avgBytesPerOp <= better.avgBytesPerOp
    && Instability(better) <= Instability(m)
  }

  /** What the results below use of the logarithm. */
  ghost predicate IsLogarithm(log2: real -> real) {
    forall x, y | 1.0 <= x <= y :: 0.0 <= log2(x) <= log2(y)
  }

  /** Going from x to y bytes per operation does not leave the neutral score for less. */
  predicate KeepsNeutralScore(x: real, y: real, log2: real -> real) {
    x > 0.0 || y <= 0.0 || log2(y / 1024.0 + 1.0) >= 5.0
  }

  /** More bytes per operation raise the throughput score, except that a node without any has a neutral
      score, which is lost by moving few. */
  lemma ThroughputRisesIff(m: NodeMetrics, better: NodeMetrics, log2: real -> real)
    requires IsLogarithm(log2) && m.avgBytesPerOp <= better.avgBytesPerOp
    ensures ThroughputScore(m, log2) <= ThroughputScore(better, log2) <==>
              KeepsNeutralScore(m.avgBytesPerOp, better.avgBytesPerOp, log2)
  {
    var x, y := m.avgBytesPerOp / 1024.0 + 1.0, better.avgBytesPerOp / 1024.0 + 1.0;
    assert m.avgBytesPerOp > 0.0 ==> log2(x) <= log2(y);
  }

  lemma BetterNodeScoresHigher(m: NodeMetrics, better: NodeMetrics, log2: real -> real)
    requires IsLogarithm(log2) && NoWorse(better, m)
    requires KeepsNeutralScore(m.avgBytesPerOp, better.avgBytesPerOp, log2)
    ensures ScoreFromMetrics(m, DEFAULT_WEIGHTS, log2).score <= ScoreFromMetrics(better, DEFAULT_WEIGHTS, log2).score
  {
    assert LatencyScore(m) <= LatencyScore(better);
    assert StabilityScore(m) <= StabilityScore(better);
    ThroughputRisesIff(m, better, log2);
    hide LatencyScore, StabilityScore, ThroughputScore;
  }

  /** Nodes with y bytes per operation never score lower than nodes with x that are worse or equal in
      every respect. */
  ghost predicate NeverScoresLower(x: real, y: real, log2: real -> real) {
    forall m: NodeMetrics, better: NodeMetrics | m.avgBytesPerOp == x && better.avgBytesPerOp == y && NoWorse(better, m) ::
      ScoreFromMetrics(m, DEFAULT_WEIGHTS, log2).score <= ScoreFromMetrics(better, DEFAULT_WEIGHTS, log2).score
  }

  /** The exact condition under which a node that is no worse in any respect never scores lower. */
  lemma NeverScoresLowerIff(x: real, y: real, log2: real -> real)
    requires IsLogarithm(log2) && x <= y
    ensures NeverScoresLower(x, y, log2) <==> KeepsNeutralScore(x, y, log2)
  {
    if KeepsNeutralScore(x, y, log2) {
      forall m: NodeMetrics, better: NodeMetrics | m.avgBytesPerOp == x && better.avgBytesPerOp == y && NoWorse(better, m)
        ensures ScoreFromMetrics(m, DEFAULT_WEIGHTS, log2).score <= ScoreFromMetrics(better, DEFAULT_WEIGHTS, log2).score
      {
        BetterNodeScoresHigher(m, better, log2);
      }
    } else {
      var m := NodeMetrics("n", 1, 1, 0, 0, 0, 0, 0.0, 0, 0, 0, 0, x, 0.0, 1.0, 0.0, 0.0);
      var better := m.(avgBytesPerOp := y);
      ThroughputRisesIff(m, better, log2);
      assert 0.0 <= log2(1.0) <= log2(y / 1024.0 + 1.0);
      assert ScoreFromMetrics(better, DEFAULT_WEIGHTS, log2).score < ScoreFromMetrics(m, DEFAULT_WEIGHTS, log2).score;
    }
  }

  /** An input for which it fails: after one answered ping a node scores 0.925, after one relayed
      kilobyte in no measurable time it scores 0.865. */
  lemma RelayingCanScoreLower(node: NodeId, log2: real -> real)
    requires log2(2.0) == 1.0
    ensures var idle := MetricsOf(node, [Event(node, PingSuccess, 0, 0, 1.0)]);
            var busy := MetricsOf(node, [Event(node, RelaySuccess, 0, 1024, 1.0)]);
            && NoWorse(busy, idle)
            && ScoreFromMetrics(idle, DEFAULT_WEIGHTS, log2).score == 0.925
            && ScoreFromMetrics(busy, DEFAULT_WEIGHTS, log2).score == 0.865
  {
    SingleEvent(Event(node, PingSuccess, 0, 0, 1.0));
    SingleEvent(Event(node, RelaySuccess, 0, 1024, 1.0));
    hide MetricsOf;
  }

  lemma SingleEvent(e: Event)
    requires e.kind in SUCCESS && e.latencyMs == 0
    ensures MetricsOf(e.node, [e]) == NodeMetrics(e.node, 1, 1, 0, 0, 0, 0, 0.0, 0, 0, 0, e.dataBytes, e.dataBytes as real,
                                                  0.0, 1.0, e.timestamp, e.timestamp)
  {
    assert [e][..0] == [];
    assert forall kinds :: Count([e], kinds) == if e.kind in kinds then 1 else 0;
    assert Latencies([e]) == [] && TotalBytes([e]) == e.dataBytes;
    assert Ratio(0, 1) == 0.0 && Ratio(e.dataBytes, 1) == e.dataBytes as real;
  }

  // ----- routes

  /** What the scorer knows about a node; None stands for a node without events. */
  type Scores = NodeId -> Option<ScoreResult>

  function Factor(scores: Scores, node: NodeId): real {
    if scores(node).Some? then scores(node).value.score else 0.5
  }

  function Confidence(scores: Scores, node: NodeId): real {
    if scores(node).Some? then scores(node).value.confidence else 0.0
  }

  function Product(scores: Scores, nodes: seq<NodeId>): real {
    if nodes == [] then 1.0 else Times(Product(scores, nodes[..|nodes| - 1]), Factor(scores, nodes[|nodes| - 1]))
  }

  function LeastConfidence(scores: Scores, nodes: seq<NodeId>): real {
    if nodes == [] then 1.0 else
      Min(Confidence(scores, nodes[|nodes| - 1]), LeastConfidence(scores, nodes[..|nodes| - 1]))
  }

  /** Score and confidence of a route. */
  method ScoreRoute(scores: Scores, nodes: seq<NodeId>) returns (score: real, confidence: real)
    requires forall n :: InRange(scores, n)
    ensures nodes == [] ==> score == 0.0 && confidence == 0.0
    ensures nodes != [] ==> score == Product(scores, nodes) && confidence == LeastConfidence(scores, nodes)
  {
    if |nodes| == 0 {
      return 0.0, 0.0;
    }
    score, confidence := 1.0, 1.0;
    for i := 0 to |nodes|
      invariant score == Product(scores, nodes[..i])
      invariant confidence == LeastConfidence(scores, nodes[..i]) && confidence >= 0.0
    {
      assert nodes[..i + 1][..i] == nodes[..i];
      assert InRange(scores, nodes[i]);
      var ns := scores(nodes[i]);
      if ns == None {
        score := score * 0.5;
        confidence := 0.0;
        continue;
      }
      score := score * ns.value.score;
      if ns.value.confidence < confidence {
        confidence := ns.value.confidence;
      }
    }
    assert nodes[..|nodes|] == nodes;
  }

  /** Scores and confidences are between 0 and 1, as ScoreFromMetrics makes them. */
  ghost predicate InRange(scores: Scores, node: NodeId) {
    0.0 <= Factor(scores, node) <= 1.0 && 0.0 <= Confidence(scores, node) <= 1.0
  }

  /** A route is at most as good as each of its hops, and never gets better by another hop. (The empty
      route scores 0, so its first hop is the exception.) */
  lemma {:induction false} RouteIsNoBetterThanItsHops(scores: Scores, nodes: seq<NodeId>, extra: NodeId)
    requires forall n :: InRange(scores, n)
    ensures 0.0 <= Product(scores, nodes) <= 1.0
    ensures forall n | n in nodes :: Product(scores, nodes) <= Factor(scores, n)
    ensures Product(scores, nodes + [extra]) <= Product(scores, nodes)
  {
    if nodes != [] {
      var last := nodes[|nodes| - 1];
      RouteIsNoBetterThanItsHops(scores, nodes[..|nodes| - 1], last);
      assert InRange(scores, last);
      TimesOfFractions(Product(scores, nodes[..|nodes| - 1]), Factor(scores, last));
    }
    assert (nodes + [extra])[..|nodes|] == nodes;
    assert InRange(scores, extra);
    hide Times, Factor;
    TimesOfFractions(Product(scores, nodes), Factor(scores, extra));
  }

  /** Taking one hop out of the middle takes its factor and its confidence out. */
  lemma {:induction false} TakeOut(scores: Scores, nodes: seq<NodeId>, i: nat)
    requires i < |nodes|
    ensures var rest := nodes[..i] + nodes[i + 1..];
            && Product(scores, nodes) == Times(Product(scores, rest), Factor(scores, nodes[i]))
            && LeastConfidence(scores, nodes) == Min(Confidence(scores, nodes[i]), LeastConfidence(scores, rest))
  {
    hide Times, Factor, Confidence, Product, LeastConfidence;
    var n := |nodes| - 1;
    var rest := nodes[..i] + nodes[i + 1..];
    LastHop(scores, nodes);
    if i == n {
      assert rest == nodes[..n];
    } else {
      var fewer := nodes[..n][..i] + nodes[..n][i + 1..];
      TakeOut(scores, nodes[..n], i);
      assert rest[..|rest| - 1] == fewer && rest[|rest| - 1] == nodes[n];
      LastHop(scores, rest);
      TimesSwap(Product(scores, fewer), Factor(scores, nodes[i]), Factor(scores, nodes[n]));
    }
  }

  lemma LastHop(scores: Scores, nodes: seq<NodeId>)
    requires nodes != []
    ensures var n := |nodes| - 1;
            && Product(scores, nodes) == Times(Product(scores, nodes[..n]), Factor(scores, nodes[n]))
            && LeastConfidence(scores, nodes) == Min(Confidence(scores, nodes[n]), LeastConfidence(scores, nodes[..n]))
  {
  }

  /** The order of the hops does not matter. */
  lemma {:induction false} RouteScoreIsOrderFree(scores: Scores, a: seq<NodeId>, b: seq<NodeId>)
    requires multiset(a) == multiset(b)
    ensures Product(scores, a) == Product(scores, b) && LeastConfidence(scores, a) == LeastConfidence(scores, b)
    decreases |a|
  {
    assert |a| == |multiset(a)| == |multiset(b)| == |b|;
    if a != [] {
      var i := PlaceOfLast(a, b);
      TakeOut(scores, b, i);
      hide Times, Factor, Confidence;
      RouteScoreIsOrderFree(scores, a[..|a| - 1], b[..i] + b[i + 1..]);
    }
  }

  lemma PlaceOfLast(a: seq<NodeId>, b: seq<NodeId>) returns (i: nat)
    requires a != [] && multiset(a) == multiset(b)
    ensures i < |b| && b[i] == a[|a| - 1]
    ensures multiset(a[..|a| - 1]) == multiset(b[..i] + b[i + 1..])
  {
    var last := a[|a| - 1];
    assert last in multiset(b);
    i :| 0 <= i < |b| && b[i] == last;
    calc {
      multiset(a[..|a| - 1]);
      { assert a == a[..|a| - 1] + [last]; }
      multiset(a) - multiset{last};
      { assert b == b[..i] + [last] + b[i + 1..]; }
      multiset(b[..i] + b[i + 1..]);
    }
  }

  // ----- ranking

  /** Where the insertion step of the sort puts x: behind everything that is not worse. */
  function Inserted(ranked: seq<ScoreResult>, x: ScoreResult): seq<ScoreResult> {
    if ranked == [] || ranked[|ranked| - 1].score >= x.score then ranked + [x]
    else Inserted(ranked[..|ranked| - 1], x) + [ranked[|ranked| - 1]]
  }

  function Ranked(results: seq<ScoreResult>): seq<ScoreResult> {
    if results == [] then [] else Inserted(Ranked(results[..|results| - 1]), results[|results| - 1])
  }

  /** The results with a given score, in order. */
  function WithScore(results: seq<ScoreResult>, score: real): seq<ScoreResult> {
    if results == [] then [] else
      var rest := WithScore(results[..|results| - 1], score);
      if results[|results| - 1].score == score then rest + [results[|results| - 1]] else rest
  }

  ghost predicate Descending(results: seq<ScoreResult>) {
    forall i, j | 0 <= i < j < |results| :: results[i].score >= results[j].score
  }

  lemma {:induction false} InsertedAt(ranked: seq<ScoreResult>, x: ScoreResult, j: nat)
    requires j <= |ranked|
    requires forall k | j <= k < |ranked| :: ranked[k].score < x.score
    requires j == 0 || ranked[j - 1].score >= x.score
    ensures Inserted(ranked, x) == ranked[..j] + [x] + ranked[j..]
  {
    if j < |ranked| {
      var n := |ranked| - 1;
      InsertedAt(ranked[..n], x, j);
      assert ranked[j..] == ranked[..n][j..] + [ranked[n]];
    }
  }

  /** The sorting loops of RankNodes. */
  method SortDescending(results: array<ScoreResult>)
    modifies results
    ensures results[..] == Ranked(old(results[..]))
  {
    ghost var was := results[..];
    SortingStarts(was);
    hide *;
    var i := 1;
    while i < results.Length
      invariant 1 <= i
      invariant i <= results.Length ==> results[..] == SortedUpTo(was, i)
      invariant i > results.Length ==> i == 1 && results[..] == was
    {
      SortingAdvances(was, i);
      InsertStep(results, i, Ranked(was[..i]), was[i], was[i + 1..]);
      i := i + 1;
    }
    SortingEnds(was);
  }

  /** The array before the outer loop's pass i. */
  ghost function SortedUpTo(was: seq<ScoreResult>, i: nat): seq<ScoreResult>
    requires i <= |was|
  {
    Ranked(was[..i]) + was[i..]
  }

  lemma SortingStarts(was: seq<ScoreResult>)
    ensures if was == [] then Ranked(was) == was else SortedUpTo(was, 1) == was
  {
    if was != [] {
      assert was[..1] == [was[0]] && was[..1][..0] == [];
      assert Ranked(was[..1]) == [was[0]];
    }
  }

  lemma SortingAdvances(was: seq<ScoreResult>, i: nat)
    requires i < |was|
    ensures |Ranked(was[..i])| == i
    ensures SortedUpTo(was, i) == Ranked(was[..i]) + [was[i]] + was[i + 1..]
    ensures SortedUpTo(was, i + 1) == Inserted(Ranked(was[..i]), was[i]) + was[i + 1..]
  {
    RankedLength(was[..i]);
    assert was[..i + 1][..i] == was[..i];
    hide Inserted;
    assert Ranked(was[..i + 1]) == Inserted(Ranked(was[..i]), was[i]);
    hide Ranked;
  }

  lemma SortingEnds(was: seq<ScoreResult>)
    ensures SortedUpTo(was, |was|) == Ranked(was)
  {
    assert was[..|was|] == was;
  }

  lemma {:induction false} RankedLength(results: seq<ScoreResult>)
    ensures |Ranked(results)| == |results|
  {
    if results != [] {
      RankedLength(results[..|results| - 1]);
      InsertedLength(Ranked(results[..|results| - 1]), results[|results| - 1]);
    }
  }

  lemma {:induction false} InsertedLength(ranked: seq<ScoreResult>, x: ScoreResult)
    ensures |Inserted(ranked, x)| == |ranked| + 1
  {
    if ranked != [] && ranked[|ranked| - 1].score < x.score {
      InsertedLength(ranked[..|ranked| - 1], x);
    }
  }

  /** The inner loop: element i moves left past everything that is worse. */
  method InsertStep(results: array<ScoreResult>, i: nat, ghost ranked: seq<ScoreResult>, ghost x: ScoreResult,
                    ghost rest: seq<ScoreResult>)
    requires i < results.Length && |ranked| == i
    requires results[..] == ranked + [x] + rest
    modifies results
    ensures results[..] == Inserted(ranked, x) + rest
  {
    hide *;
    PlacedAt(ranked, x, rest, i);
    var j := i;
    while j > 0 && results[j].score > results[j - 1].score
      invariant 0 <= j <= i
      invariant results[..] == Placed(ranked, x, rest, j)
      invariant forall k | j <= k < i :: ranked[k].score < x.score
    {
      PlacedAt(ranked, x, rest, j);
      Swap(results, j);
      j := j - 1;
    }
    PlacedAt(ranked, x, rest, j);
    InsertedAt(ranked, x, j);
  }

  method Swap(results: array<ScoreResult>, j: nat)
    requires 1 <= j < results.Length
    modifies results
    ensures results[..] == old(results[..])[j := old(results[j - 1])][j - 1 := old(results[j])]
  {
    results[j], results[j - 1] := results[j - 1], results[j];
  }

  /** The array while x is being moved, x standing at j. */
  ghost function Placed(ranked: seq<ScoreResult>, x: ScoreResult, rest: seq<ScoreResult>, j: nat): seq<ScoreResult>
    requires j <= |ranked|
  {
    ranked[..j] + [x] + ranked[j..] + rest
  }

  lemma PlacedAt(ranked: seq<ScoreResult>, x: ScoreResult, rest: seq<ScoreResult>, j: nat)
    requires j <= |ranked|
    ensures var here := Placed(ranked, x, rest, j);
            && |here| == |ranked| + 1 + |rest| && here[j] == x
            && here == ranked[..j] + [x] + ranked[j..] + rest
            && (j == |ranked| ==> here == ranked + [x] + rest)
            && (j > 0 ==> here[j - 1] == ranked[j - 1]
                          && Placed(ranked, x, rest, j - 1) == here[j := here[j - 1]][j - 1 := here[j]])
  {
  }

  /** Unknown nodes are ranked with a neutral score. */
  function ResultFor(scores: Scores, node: NodeId): ScoreResult {
    if scores(node).Some? then scores(node).value else ScoreResult(node, 0.5, 0.0)
  }

  method RankNodes(scores: Scores, nodes: seq<NodeId>) returns (ranking: seq<ScoreResult>)
    ensures ranking == Ranked(seq(|nodes|, i requires 0 <= i < |nodes| => ResultFor(scores, nodes[i])))
    ensures |ranking| == |nodes| && forall i, j | 0 <= i < j < |ranking| :: ranking[i].score >= ranking[j].score
  {
    var results := new ScoreResult[|nodes|](i requires 0 <= i < |nodes| => ResultFor(scores, nodes[i]));
    assert results[..] == seq(|nodes|, i requires 0 <= i < |nodes| => ResultFor(scores, nodes[i]));
    ghost var unsorted := results[..];
    SortDescending(results);
    RankedIsStableSort(unsorted);
    RankedLength(unsorted);
    return results[..];
  }

  lemma {:induction false} InsertedIsStable(ranked: seq<ScoreResult>, x: ScoreResult, score: real)
    ensures WithScore(Inserted(ranked, x), score) == WithScore(ranked, score) + if x.score == score then [x] else []
  {
    if ranked == [] || ranked[|ranked| - 1].score >= x.score {
      assert (ranked + [x])[..|ranked|] == ranked;
    } else {
      var n := |ranked| - 1;
      InsertedIsStable(ranked[..n], x, score);
      var rest := Inserted(ranked[..n], x);
      assert (rest + [ranked[n]])[..|rest|] == rest;
    }
  }

  lemma {:induction false} InsertedIsBounded(ranked: seq<ScoreResult>, x: ScoreResult, bound: real)
    requires x.score >= bound && forall i | 0 <= i < |ranked| :: ranked[i].score >= bound
    ensures forall i | 0 <= i < |Inserted(ranked, x)| :: Inserted(ranked, x)[i].score >= bound
  {
    if ranked != [] && ranked[|ranked| - 1].score < x.score {
      InsertedIsBounded(ranked[..|ranked| - 1], x, bound);
    }
  }

  lemma {:induction false} InsertedKeepsAll(ranked: seq<ScoreResult>, x: ScoreResult)
    ensures multiset(Inserted(ranked, x)) == multiset(ranked) + multiset{x}
  {
    if ranked != [] && ranked[|ranked| - 1].score < x.score {
      var n := |ranked| - 1;
      InsertedKeepsAll(ranked[..n], x);
      assert ranked == ranked[..n] + [ranked[n]];
    }
  }

  lemma {:induction false} InsertedIsDescending(ranked: seq<ScoreResult>, x: ScoreResult)
    requires Descending(ranked)
    ensures Descending(Inserted(ranked, x))
  {
    if ranked != [] && ranked[|ranked| - 1].score < x.score {
      var n := |ranked| - 1;
      InsertedIsDescending(ranked[..n], x);
      InsertedIsBounded(ranked[..n], x, ranked[n].score);
    }
  }

  /** The ranking is descending, a permutation of the results, and stable: results with equal scores
      keep their order. */
  lemma {:induction false} RankedIsStableSort(results: seq<ScoreResult>)
    ensures Descending(Ranked(results))
    ensures multiset(Ranked(results)) == multiset(results)
    ensures forall score :: WithScore(Ranked(results), score) == WithScore(results, score)
  {
    if results != [] {
      var n := |results| - 1;
      var ranked, x := Ranked(results[..n]), results[n];
      assert Ranked(results) == Inserted(ranked, x);
      hide *;
      LastCounts(results);
      RankedIsStableSort(results[..n]);
      InsertedIsDescending(ranked, x);
      InsertedKeepsAll(ranked, x);
      forall score ensures WithScore(Ranked(results), score) == WithScore(results, score) {
        WithScoreOfLast(results, score);
        InsertedIsStable(ranked, x, score);
      }
    }
  }

  lemma LastCounts(results: seq<ScoreResult>)
    requires results != []
    ensures multiset(results) == multiset(results[..|results| - 1]) + multiset{results[|results| - 1]}
  {
    assert results == results[..|results| - 1] + [results[|results| - 1]];
  }

  lemma WithScoreOfLast(results: seq<ScoreResult>, score: real)
    requires results != []
    ensures var n := |results| - 1;
            WithScore(results, score) == WithScore(results[..n], score) + if results[n].score == score then [results[n]] else []
  {
  }

  /** A node without events is ranked as one with score 0.5 and no confidence: behind every better node and
      before every worse one. */
  lemma UnknownNodeRanksInTheMiddle(scores: Scores, nodes: seq<NodeId>, node: NodeId) returns (k: nat)
    requires node in nodes && scores(node) == None
    ensures var ranking := Ranked(seq(|nodes|, i requires 0 <= i < |nodes| => ResultFor(scores, nodes[i])));
            && k < |ranking| && ranking[k] == ScoreResult(node, 0.5, 0.0)
            && (forall i | 0 <= i < |ranking| && ranking[i].score > 0.5 :: i < k)
            && (forall i | 0 <= i < |ranking| && ranking[i].score < 0.5 :: i > k)
  {
    var results := seq(|nodes|, i requires 0 <= i < |nodes| => ResultFor(scores, nodes[i]));
    var ranking, unknown := Ranked(results), ScoreResult(node, 0.5, 0.0);
    RankedIsStableSort(results);
    var i :| 0 <= i < |nodes| && nodes[i] == node;
    assert results[i] == unknown;
    assert unknown in multiset(ranking);
    k :| 0 <= k < |ranking| && ranking[k] == unknown;
    hide Ranked;
  }

  /** A known node keeps its own result in the ranking. */
  lemma KnownNodeKeepsResult(scores: Scores, nodes: seq<NodeId>, node: NodeId)
    requires node in nodes && scores(node).Some?
    ensures scores(node).value in Ranked(seq(|nodes|, i requires 0 <= i < |nodes| => ResultFor(scores, nodes[i])))
  {
    var results := seq(|nodes|, i requires 0 <= i < |nodes| => ResultFor(scores, nodes[i]));
    RankedIsStableSort(results);
    var i :| 0 <= i < |nodes| && nodes[i] == node;
    assert results[i] == scores(node).value;
    assert scores(node).value in multiset(Ranked(results));
  }

  // ----- thresholds

  /** An unknown hop halves the score of a route and takes away all confidence. */
  lemma UnknownHopHalvesScore(scores: Scores, nodes: seq<NodeId>, i: nat)
    requires i < |nodes| && scores(nodes[i]) == None && forall n :: InRange(scores, n)
    ensures Product(scores, nodes) == Product(scores, nodes[..i] + nodes[i + 1..]) * 0.5
    ensures LeastConfidence(scores, nodes) == 0.0
  {
    TakeOut(scores, nodes, i);
    ConfidenceIsNonNegative(scores, nodes[..i] + nodes[i + 1..]);
    hide Product, LeastConfidence;
  }

  lemma {:induction false} ConfidenceIsNonNegative(scores: Scores, nodes: seq<NodeId>)
    requires forall n :: InRange(scores, n)
    ensures LeastConfidence(scores, nodes) >= 0.0
  {
    if nodes != [] {
      assert InRange(scores, nodes[|nodes| - 1]);
      ConfidenceIsNonNegative(scores, nodes[..|nodes| - 1]);
    }
  }

  /** Where the factors of a score reach their ends: five seconds of latency, a fifth of the events being
      reroutes or circuit opens, 2^10 - 1 kilobytes per operation (in terms of the logarithm), fifty events. */
  lemma FactorsReachTheirEnds(m: NodeMetrics, log2: real -> real)
    requires m.totalEvents > 0
    ensures LatencyScore(m) == 0.0 <==> m.avgLatencyMs >= 5000.0
    ensures LatencyScore(m) == 1.0 <==> m.avgLatencyMs <= 0.0
    ensures StabilityScore(m) == 0.0 <==> 5 * (m.reroutes + m.circuitOpens) >= m.totalEvents
    ensures StabilityScore(m) == 1.0 <==> m.reroutes + m.circuitOpens == 0
    ensures m.avgBytesPerOp > 0.0 ==>
              (ThroughputScore(m, log2) == 1.0 <==> log2(m.avgBytesPerOp / 1024.0 + 1.0) >= 10.0)
    ensures ScoreFromMetrics(m, DEFAULT_WEIGHTS, log2).confidence == 1.0 <==> m.totalEvents >= 50
  {
    hide WeightedSum, Instability;
    InstabilityThresholds(m);
  }

  lemma InstabilityThresholds(m: NodeMetrics)
    requires m.totalEvents > 0
    ensures Instability(m) * 5.0 >= 1.0 <==> 5 * (m.reroutes + m.circuitOpens) >= m.totalEvents
    ensures Instability(m) == 0.0 <==> m.reroutes + m.circuitOpens == 0
  {
    var k, n := (m.reroutes + m.circuitOpens) as real, m.totalEvents as real;
    FractionThreshold(k, n, Instability(m));
  }

  lemma FractionThreshold(k: real, n: real, q: real)
    requires n > 0.0 && q == k / n
    ensures q * 5.0 >= 1.0 <==> 5.0 * k >= n
    ensures q == 0.0 <==> k == 0.0
  {
    assert q * n == k;
    var excess := (q * 5.0 - 1.0) * n;
    assert excess == 5.0 * k - n;
    SignOfProduct(q * 5.0 - 1.0, n);
    if k == 0.0 {
      assert q == 0.0 / n;
    }
  }

  lemma SignOfProduct(x: real, n: real)
    requires n > 0.0
    ensures x * n >= 0.0 <==> x >= 0.0
  {
    if x < 0.0 {
      TimesPositive(-x, n);
      assert Times(-x, n) == -(x * n);
    } else if x > 0.0 {
      TimesPositive(x, n);
    }
  }

  /** What the default weights are worth: 0.40 for uptime, 0.30 for latency, 0.15 each for throughput and
      stability. A node at the good end of all factors but one scores 1 less the weight of that one. */
  lemma WeightsOfFactors(m: NodeMetrics, log2: real -> real)
    requires m.uptime in {0.0, 1.0} && LatencyScore(m) in {0.0, 1.0}
    requires ThroughputScore(m, log2) in {0.0, 1.0} && StabilityScore(m) in {0.0, 1.0}
    ensures ScoreFromMetrics(m, DEFAULT_WEIGHTS, log2).score ==
            1.0 - (if m.uptime == 0.0 then 0.40 else 0.0) - (if LatencyScore(m) == 0.0 then 0.30 else 0.0)
            - (if ThroughputScore(m, log2) == 0.0 then 0.15 else 0.0) - (if StabilityScore(m) == 0.0 then 0.15 else 0.0)
  {
    hide LatencyScore, ThroughputScore, StabilityScore;
  }
}
