/** internal/intelligence/anomaly.go: outlier detection by population z-scores.

    Floats are reals. The square root is a parameter `sqrt` of which only its defining property is
    used, and only at the variances of the data. */
module Anomalies {
  import opened Common
  import opened Collectors
  import opened Reals

  datatype Config = Config(latencyZ: real, failureRate: real, trafficZ: real, minEvents: int)

  const DEFAULT_CONFIG := Config(2.5, 0.30, 3.0, 10)

  datatype AlertType = LatencySpike | HighFailureRate | TrafficSpike | NodeUnresponsive

  datatype Alert = Alert(node: NodeId, kind: AlertType, severity: real, value: real, threshold: real)

  // ----- statistics

  function Sum(data: seq<real>): real {
    if data == [] then 0.0 else Sum(data[..|data| - 1]) + data[|data| - 1]
  }

  /** The sum of the squared distances to c. */
  function SquaredDistances(data: seq<real>, c: real): real {
    if data == [] then 0.0 else
      var d := data[|data| - 1] - c;
      SquaredDistances(data[..|data| - 1], c) + Times(d, d)
  }

  function Mean(data: seq<real>): real {
    if data == [] then 0.0 else Sum(data) / |data| as real
  }

  /** Population variance. */
  function Variance(data: seq<real>): real {
    if data == [] then 0.0 else SquaredDistances(data, Mean(data)) / |data| as real
  }

  method MeanStd(data: seq<real>, sqrt: real -> real) returns (mean: real, std: real)
    ensures mean == Mean(data)
    ensures std == if data == [] then 0.0 else sqrt(Variance(data))
  {
    if |data| == 0 {
      return 0.0, 0.0;
    }
    var n := |data| as real;
    var sum := 0.0;
    for i := 0 to |data|
      invariant sum == Sum(data[..i])
    {
      assert data[..i + 1][..i] == data[..i];
      sum := sum + data[i];
    }
    assert data[..|data|] == data;
    mean := sum / n;
    var variance := 0.0;
    for i := 0 to |data|
      invariant variance == SquaredDistances(data[..i], mean)
    {
      assert data[..i + 1][..i] == data[..i];
      var diff := data[i] - mean;
      variance := variance + diff * diff;
    }
    variance := variance / n;
    std := sqrt(variance);
  }

  function Clamp(v: real, lo: real, hi: real): real {
    var capped := if v < hi then v else hi;
    if capped > lo then capped else lo
  }

  // ----- detection

  /** The nodes with enough events. The order is that of the map iteration, which is left open. */
  function Eligible(all: seq<NodeMetrics>, config: Config): seq<NodeMetrics> {
    if all == [] then [] else
      var rest := Eligible(all[..|all| - 1], config);
      if all[|all| - 1].totalEvents < config.minEvents then rest else rest + [all[|all| - 1]]
  }

  function AvgLatencies(nodes: seq<NodeMetrics>): seq<real> {
    seq(|nodes|, i requires 0 <= i < |nodes| => nodes[i].avgLatencyMs)
  }

  function AvgBytes(nodes: seq<NodeMetrics>): seq<real> {
    seq(|nodes|, i requires 0 <= i < |nodes| => nodes[i].avgBytesPerOp)
  }

  /** value lies more than k standard deviations above the mean */
  predicate Exceeds(value: real, mean: real, std: real, k: real) {
    std > 0.0 && (value - mean) / std > k
  }

  function SpikeAlerts(node: NodeId, kind: AlertType, value: real, mean: real, std: real, k: real): seq<Alert> {
    if Exceeds(value, mean, std, k) then [Spike(node, kind, value, mean, std, k, (value - mean) / std)] else []
  }

  function Spike(node: NodeId, kind: AlertType, value: real, mean: real, std: real, k: real, z: real): Alert {
    Alert(node, kind, Clamp(z / 5.0, 0.0, 1.0), value, mean + k * std)
  }

  function FailureAlerts(m: NodeMetrics, config: Config): seq<Alert> {
    if m.failureRate > config.failureRate then
      [Alert(m.node, HighFailureRate, Clamp(m.failureRate, 0.0, 1.0), m.failureRate, config.failureRate)]
    else []
  }

  function UnresponsiveAlerts(m: NodeMetrics): seq<Alert> {
    if m.successes == 0 && m.failures > 0 then [Alert(m.node, NodeUnresponsive, 1.0, 0.0, 1.0)] else []
  }

  function AlertsOf(m: NodeMetrics, config: Config, latMean: real, latStd: real, trafficMean: real, trafficStd: real)
    : seq<Alert>
  {
    SpikeAlerts(m.node, LatencySpike, m.avgLatencyMs, latMean, latStd, config.latencyZ)
    + FailureAlerts(m, config)
    + SpikeAlerts(m.node, TrafficSpike, m.avgBytesPerOp, trafficMean, trafficStd, config.trafficZ)
    + UnresponsiveAlerts(m)
  }

  function AlertsOfAll(nodes: seq<NodeMetrics>, config: Config, latMean: real, latStd: real,
                       trafficMean: real, trafficStd: real): seq<Alert>
  {
    if nodes == [] then [] else
      AlertsOfAll(nodes[..|nodes| - 1], config, latMean, latStd, trafficMean, trafficStd)
      + AlertsOf(nodes[|nodes| - 1], config, latMean, latStd, trafficMean, trafficStd)
  }

  function StdDev(data: seq<real>, sqrt: real -> real): real {
    if data == [] then 0.0 else sqrt(Variance(data))
  }

  /** The alerts for the metrics of all nodes. */
  function Detected(all: seq<NodeMetrics>, config: Config, sqrt: real -> real): seq<Alert> {
    var nodes := Eligible(all, config);
    if |all| < 2 then [] else
      AlertsOfAll(nodes, config, Mean(AvgLatencies(nodes)), StdDev(AvgLatencies(nodes), sqrt),
                  Mean(AvgBytes(nodes)), StdDev(AvgBytes(nodes), sqrt))
  }

  method Detect(all: seq<NodeMetrics>, config: Config, sqrt: real -> real) returns (alerts: seq<Alert>)
    ensures alerts == Detected(all, config, sqrt)
  {
    if |all| < 2 {
      return [];
    }
    var latencies, bytesPerOp := Population(all, config);
    var latMean, latStd := MeanStd(latencies, sqrt);
    var trafficMean, trafficStd := MeanStd(bytesPerOp, sqrt);
    alerts := [];
    assert Eligible(all[..0], config) == [];
    assert AlertsOfAll([], config, latMean, latStd, trafficMean, trafficStd) == [];
    hide Mean, Variance, AvgLatencies, AvgBytes, StdDev, AlertsOf, AlertsOfAll, Eligible;
    for i := 0 to |all|
      invariant alerts == AlertsOfAll(Eligible(all[..i], config), config, latMean, latStd, trafficMean, trafficStd)
    {
      var m := all[i];
      NextNode(all, i, config, latMean, latStd, trafficMean, trafficStd);
      if m.totalEvents < config.minEvents {
        continue;
      }
      var own := Inspect(m, config, latMean, latStd, trafficMean, trafficStd);
      alerts := alerts + own;
    }
    assert all[..|all|] == all;
  }

  lemma NextNode(all: seq<NodeMetrics>, i: nat, config: Config, latMean: real, latStd: real,
                 trafficMean: real, trafficStd: real)
    requires i < |all|
    ensures AlertsOfAll(Eligible(all[..i + 1], config), config, latMean, latStd, trafficMean, trafficStd) ==
            AlertsOfAll(Eligible(all[..i], config), config, latMean, latStd, trafficMean, trafficStd)
            + if all[i].totalEvents < config.minEvents then []
              else AlertsOf(all[i], config, latMean, latStd, trafficMean, trafficStd)
  {
    assert all[..i + 1][..i] == all[..i];
    var before := Eligible(all[..i], config);
    assert (before + [all[i]])[..|before|] == before;
    hide AlertsOf;
  }

  /** The first loop of Detect. */
  method Population(all: seq<NodeMetrics>, config: Config) returns (latencies: seq<real>, bytesPerOp: seq<real>)
    ensures latencies == AvgLatencies(Eligible(all, config)) && bytesPerOp == AvgBytes(Eligible(all, config))
  {
    latencies, bytesPerOp := [], [];
    for i := 0 to |all|
      invariant latencies == AvgLatencies(Eligible(all[..i], config))
      invariant bytesPerOp == AvgBytes(Eligible(all[..i], config))
    {
      assert all[..i + 1][..i] == all[..i];
      if all[i].totalEvents < config.minEvents {
        continue;
      }
      latencies := latencies + [all[i].avgLatencyMs];
      bytesPerOp := bytesPerOp + [all[i].avgBytesPerOp];
    }
    assert all[..|all|] == all;
  }

  /** The body of the second loop of Detect. */
  method Inspect(m: NodeMetrics, config: Config, latMean: real, latStd: real, trafficMean: real, trafficStd: real)
    returns (alerts: seq<Alert>)
    ensures alerts == AlertsOf(m, config, latMean, latStd, trafficMean, trafficStd)
  {
    alerts := [];
    if latStd > 0.0 {
      var z := (m.avgLatencyMs - latMean) / latStd;
      if z > config.latencyZ {
        alerts := alerts + [Spike(m.node, LatencySpike, m.avgLatencyMs, latMean, latStd, config.latencyZ, z)];
      }
    }
    ghost var spikes := SpikeAlerts(m.node, LatencySpike, m.avgLatencyMs, latMean, latStd, config.latencyZ);
    assert alerts == spikes;
    if m.failureRate > config.failureRate {
      alerts := alerts + [Alert(m.node, HighFailureRate, Clamp(m.failureRate, 0.0, 1.0), m.failureRate, config.failureRate)];
    }
    ghost var failing := FailureAlerts(m, config);
    assert alerts == spikes + failing;
    if trafficStd > 0.0 {
      var z := (m.avgBytesPerOp - trafficMean) / trafficStd;
      if z > config.trafficZ {
        alerts := alerts + [Spike(m.node, TrafficSpike, m.avgBytesPerOp, trafficMean, trafficStd, config.trafficZ, z)];
      }
    }
    assert alerts == spikes + failing
                     + SpikeAlerts(m.node, TrafficSpike, m.avgBytesPerOp, trafficMean, trafficStd, config.trafficZ);
    if m.successes == 0 && m.failures > 0 {
      alerts := alerts + [Alert(m.node, NodeUnresponsive, 1.0, 0.0, 1.0)];
    }
  }

  // ----- the one-sided Chebyshev bound

  /** How many values are flagged. */
  function CountExceeding(data: seq<real>, mean: real, std: real, k: real): nat {
    if data == [] then 0 else
      CountExceeding(data[..|data| - 1], mean, std, k) + if Exceeds(data[|data| - 1], mean, std, k) then 1 else 0
  }

  /** A standard deviation, without mentioning square roots. */
  predicate IsStd(data: seq<real>, std: real) {
    std >= 0.0 && std * std == Variance(data)
  }

  /** The z-scores that Detect compares with the threshold. */
  function ZScores(data: seq<real>, mean: real, std: real): seq<real>
    requires std > 0.0
  {
    seq(|data|, i requires 0 <= i < |data| => (data[i] - mean) / std)
  }

  function SumOfSquares(z: seq<real>): real {
    if z == [] then 0.0 else SumOfSquares(z[..|z| - 1]) + Times(z[|z| - 1], z[|z| - 1])
  }

  function CountAbove(z: seq<real>, k: real): nat {
    if z == [] then 0 else CountAbove(z[..|z| - 1], k) + if z[|z| - 1] > k then 1 else 0
  }

  lemma {:induction false} FlaggedByZScore(data: seq<real>, mean: real, std: real, k: real)
    requires std > 0.0
    ensures CountExceeding(data, mean, std, k) == CountAbove(ZScores(data, mean, std), k)
  {
    if data != [] {
      FlaggedByZScore(data[..|data| - 1], mean, std, k);
      assert ZScores(data, mean, std)[..|data| - 1] == ZScores(data[..|data| - 1], mean, std);
    }
  }

  lemma LastZScore(data: seq<real>, mean: real, std: real)
    requires std > 0.0 && data != []
    ensures var n, z := |data| - 1, ZScores(data, mean, std);
            && z[..n] == ZScores(data[..n], mean, std)
            && Times(std, z[n]) == data[n] - mean
            && Times(Times(std, std), Times(z[n], z[n])) == Times(data[n] - mean, data[n] - mean)
  {
    var n := |data| - 1;
    assert ZScores(data, mean, std)[..n] == ZScores(data[..n], mean, std);
    Unscale(data[n] - mean, std, (data[n] - mean) / std);
  }

  /** Multiplied by the standard deviation, the z-scores are the deviations. */
  lemma {:induction false} ZScoreSums(data: seq<real>, mean: real, std: real)
    requires std > 0.0
    ensures var z := ZScores(data, mean, std);
            && Times(std, Sum(z)) == Sum(data) - Times(|data| as real, mean)
            && Times(Times(std, std), SumOfSquares(z)) == SquaredDistances(data, mean)
  {
    hide Times;
    var z := ZScores(data, mean, std);
    if data == [] {
      TimesUnits(std, mean);
      TimesUnits(Times(std, std), mean);
    } else {
      var n := |data| - 1;
      ZScoreSums(data[..n], mean, std);
      LastZScore(data, mean, std);
      hide ZScores;
      TimesAdds(std, Sum(z[..n]), z[n]);
      TimesAdds(Times(std, std), SumOfSquares(z[..n]), Times(z[n], z[n]));
      TimesAdds(mean, n as real, 1.0);
      TimesUnits(std, mean);
    }
  }

  /** The z-scores sum to zero and their squares to n. */
  lemma ZScoresAreStandard(data: seq<real>, std: real)
    requires IsStd(data, std) && std > 0.0 && data != []
    ensures var z := ZScores(data, Mean(data), std);
            Sum(z) == 0.0 && SumOfSquares(z) == |data| as real
  {
    var n, mean := |data| as real, Mean(data);
    var z := ZScores(data, mean, std);
    ZScoreSums(data, mean, std);
    MeanTimesSize(Sum(data), n, mean);
    MeanTimesSize(SquaredDistances(data, mean), n, Variance(data));
    assert Times(std, std) == Variance(data);
    TimesPositive(std, std);
    hide Times, Variance, SumOfSquares, SquaredDistances, Sum, ZScores, Mean, IsStd;
    TimesUnits(std, 0.0);
    Cancel(std, Sum(z), 0.0);
    TimesCommutes(n, Times(std, std));
    Cancel(Times(std, std), SumOfSquares(z), n);
  }

  lemma MeanTimesSize(sum: real, n: real, mean: real)
    requires n > 0.0 && mean == sum / n
    ensures sum == Times(n, mean)
  {
  }

  /** The sum of (k z + 1)^2, which Cantelli's argument computes in two ways. */
  function Shifted(z: seq<real>, k: real): real {
    if z == [] then 0.0 else
      var u := Times(k, z[|z| - 1]) + 1.0;
      Shifted(z[..|z| - 1], k) + Times(u, u)
  }

  lemma ShiftedSquare(k: real, z: real)
    ensures var u := Times(k, z) + 1.0;
            Times(u, u) == Times(Times(k, k), Times(z, z)) + Times(2.0 * k, z) + 1.0
  {
    var a := k * z;
    assert (a + 1.0) * (a + 1.0) == a * a + 2.0 * a + 1.0;
    assert a * a == (k * k) * (z * z);
    assert 2.0 * a == (2.0 * k) * z;
  }

  /** First, by expanding the squares. */
  lemma {:induction false} ShiftedExpands(z: seq<real>, k: real)
    ensures Shifted(z, k) == Times(Times(k, k), SumOfSquares(z)) + Times(2.0 * k, Sum(z)) + |z| as real
  {
    if z != [] {
      var n := |z| - 1;
      ShiftedExpands(z[..n], k);
      ShiftedSquare(k, z[n]);
      TimesAdds(Times(k, k), SumOfSquares(z[..n]), Times(z[n], z[n]));
      TimesAdds(2.0 * k, Sum(z[..n]), z[n]);
      hide Times;
    }
  }

  /** A flagged score contributes at least (1 + k^2)^2, and more unless k is zero. */
  lemma FlaggedContribution(z: real, k: real)
    requires 0.0 <= k < z
    ensures var u, q := Times(k, z) + 1.0, 1.0 + Times(k, k);
            Times(u, u) >= Times(q, q) && (k > 0.0 ==> Times(u, u) > Times(q, q))
  {
    var u, q := Times(k, z) + 1.0, 1.0 + Times(k, k);
    assert u - q == k * (z - k);
    TimesGrows(q, u);
  }

  /** Second, by keeping only the flagged scores. */
  lemma {:induction false} ShiftedCountsFlagged(z: seq<real>, k: real)
    requires k > 0.0
    ensures var m, q := CountAbove(z, k), 1.0 + Times(k, k);
            Shifted(z, k) >= Times(m as real, Times(q, q))
            && (m > 0 ==> Shifted(z, k) > Times(m as real, Times(q, q)))
  {
    if z != [] {
      var n := |z| - 1;
      ShiftedCountsFlagged(z[..n], k);
      var q, u := 1.0 + Times(k, k), Times(k, z[n]) + 1.0;
      var before := CountAbove(z[..n], k) as real;
      TimesAdds(Times(q, q), before, 1.0);
      assert Times(1.0, Times(q, q)) == Times(q, q);
      assert Times(u, u) >= 0.0;
      if z[n] > k {
        FlaggedContribution(z[n], k);
        assert CountAbove(z, k) as real == before + 1.0;
      }
      hide Times;
    }
  }

  lemma {:induction false} NotAllPositive(z: seq<real>)
    ensures CountAbove(z, 0.0) <= |z|
    ensures CountAbove(z, 0.0) == |z| > 0 ==> Sum(z) > 0.0
  {
    if z != [] {
      NotAllPositive(z[..|z| - 1]);
    }
  }

  lemma DivideOut(m: real, n: real, q: real)
    requires q > 0.0 && Times(m, Times(q, q)) < Times(q, n)
    ensures Times(m, q) < n
  {
    var a := m * q;
    assert m * (q * q) == q * a;
    assert q * (n - a) > 0.0;
  }

  /** One-sided Chebyshev: of n values, m > 0 can lie more than k standard deviations above the mean
      only if m * (1 + k^2) < n. */
  lemma OneSidedChebyshev(data: seq<real>, std: real, k: real)
    requires IsStd(data, std) && k >= 0.0
    ensures var m := CountExceeding(data, Mean(data), std, k);
            m > 0 ==> m as real * (1.0 + k * k) < |data| as real
  {
    var m := CountExceeding(data, Mean(data), std, k);
    if m > 0 {
      SomeExceeds(data, Mean(data), std, k);
      var z, n := ZScores(data, Mean(data), std), |data| as real;
      ZScoresAreStandard(data, std);
      FlaggedByZScore(data, Mean(data), std, k);
      BoundOnStandardScores(z, k);
    }
  }

  lemma BoundOnStandardScores(z: seq<real>, k: real)
    requires Sum(z) == 0.0 && SumOfSquares(z) == |z| as real
    requires k >= 0.0 && CountAbove(z, k) > 0
    ensures CountAbove(z, k) as real * (1.0 + k * k) < |z| as real
  {
    if k == 0.0 {
      NotAllPositive(z);
    } else {
      var m, n, q := CountAbove(z, k) as real, |z| as real, 1.0 + Times(k, k);
      TwoWaysOfCounting(z, k);
      TimesPositive(k, k);
      assert Times(m, q) == m * (1.0 + k * k);
      hide *;
      DivideOut(m, n, q);
    }
  }

  lemma TwoWaysOfCounting(z: seq<real>, k: real)
    requires Sum(z) == 0.0 && SumOfSquares(z) == |z| as real
    requires k > 0.0 && CountAbove(z, k) > 0
    ensures var q := 1.0 + Times(k, k);
            Times(CountAbove(z, k) as real, Times(q, q)) < Times(q, |z| as real)
  {
    hide Times, SumOfSquares, Sum, CountAbove, Shifted;
    ShiftedExpands(z, k);
    ShiftedCountsFlagged(z, k);
    TimesAdds(|z| as real, 1.0, Times(k, k));
    TimesUnits(2.0 * k, |z| as real);
  }

  lemma {:induction false} SomeExceeds(data: seq<real>, mean: real, std: real, k: real)
    requires CountExceeding(data, mean, std, k) > 0
    ensures data != [] && std > 0.0
  {
    if !Exceeds(data[|data| - 1], mean, std, k) {
      SomeExceeds(data[..|data| - 1], mean, std, k);
    }
  }

  // ----- alerts

  function CountAlerts(alerts: seq<Alert>, kind: AlertType): nat {
    if alerts == [] then 0 else
      CountAlerts(alerts[..|alerts| - 1], kind) + if alerts[|alerts| - 1].kind == kind then 1 else 0
  }

  lemma {:induction false} CountAlertsOfParts(a: seq<Alert>, b: seq<Alert>, kind: AlertType)
    ensures CountAlerts(a + b, kind) == CountAlerts(a, kind) + CountAlerts(b, kind)
  {
    if b == [] {
      assert a + b == a;
    } else {
      CountAlertsOfParts(a, b[..|b| - 1], kind);
      assert (a + b)[..|a + b| - 1] == a + b[..|b| - 1];
    }
  }

  /** The spike alerts of one kind are exactly those of the flagged values. */
  lemma {:induction false} AlertsCountFlagged(nodes: seq<NodeMetrics>, config: Config, latMean: real, latStd: real,
                                              trafficMean: real, trafficStd: real)
    ensures var alerts := AlertsOfAll(nodes, config, latMean, latStd, trafficMean, trafficStd);
            && CountAlerts(alerts, LatencySpike) == CountExceeding(AvgLatencies(nodes), latMean, latStd, config.latencyZ)
            && CountAlerts(alerts, TrafficSpike) == CountExceeding(AvgBytes(nodes), trafficMean, trafficStd, config.trafficZ)
  {
    if nodes != [] {
      var n := |nodes| - 1;
      var own := AlertsOf(nodes[n], config, latMean, latStd, trafficMean, trafficStd);
      assert AlertsOfAll(nodes, config, latMean, latStd, trafficMean, trafficStd)
             == AlertsOfAll(nodes[..n], config, latMean, latStd, trafficMean, trafficStd) + own;
      CountOfLast(nodes, latMean, latStd, trafficMean, trafficStd, config);
      hide AlertsOf, AlertsOfAll, CountAlerts, AvgLatencies, AvgBytes, CountExceeding, Exceeds;
      AlertsCountFlagged(nodes[..n], config, latMean, latStd, trafficMean, trafficStd);
      CountAlertsOfParts(AlertsOfAll(nodes[..n], config, latMean, latStd, trafficMean, trafficStd), own, LatencySpike);
      CountAlertsOfParts(AlertsOfAll(nodes[..n], config, latMean, latStd, trafficMean, trafficStd), own, TrafficSpike);
      AlertsOfOneNode(nodes[n], config, latMean, latStd, trafficMean, trafficStd);
    }
  }

  lemma CountOfLast(nodes: seq<NodeMetrics>, latMean: real, latStd: real, trafficMean: real, trafficStd: real, config: Config)
    requires nodes != []
    ensures var n := |nodes| - 1;
            && CountExceeding(AvgLatencies(nodes), latMean, latStd, config.latencyZ)
               == CountExceeding(AvgLatencies(nodes[..n]), latMean, latStd, config.latencyZ)
                  + (if Exceeds(nodes[n].avgLatencyMs, latMean, latStd, config.latencyZ) then 1 else 0)
            && CountExceeding(AvgBytes(nodes), trafficMean, trafficStd, config.trafficZ)
               == CountExceeding(AvgBytes(nodes[..n]), trafficMean, trafficStd, config.trafficZ)
                  + (if Exceeds(nodes[n].avgBytesPerOp, trafficMean, trafficStd, config.trafficZ) then 1 else 0)
  {
    var n := |nodes| - 1;
    assert AvgLatencies(nodes)[..n] == AvgLatencies(nodes[..n]) && AvgBytes(nodes)[..n] == AvgBytes(nodes[..n]);
    hide Exceeds;
  }

  lemma AlertsOfOneNode(m: NodeMetrics, config: Config, latMean: real, latStd: real, trafficMean: real, trafficStd: real)
    ensures var own := AlertsOf(m, config, latMean, latStd, trafficMean, trafficStd);
            && CountAlerts(own, LatencySpike) == (if Exceeds(m.avgLatencyMs, latMean, latStd, config.latencyZ) then 1 else 0)
            && CountAlerts(own, TrafficSpike) == (if Exceeds(m.avgBytesPerOp, trafficMean, trafficStd, config.trafficZ) then 1 else 0)
  {
    var latency := SpikeAlerts(m.node, LatencySpike, m.avgLatencyMs, latMean, latStd, config.latencyZ);
    var traffic := SpikeAlerts(m.node, TrafficSpike, m.avgBytesPerOp, trafficMean, trafficStd, config.trafficZ);
    var failing, silent := FailureAlerts(m, config), UnresponsiveAlerts(m);
    forall kind ensures CountAlerts(AlertsOf(m, config, latMean, latStd, trafficMean, trafficStd), kind) ==
                        CountAlerts(latency, kind) + CountAlerts(failing, kind) + CountAlerts(traffic, kind) + CountAlerts(silent, kind)
    {
      CountAlertsOfParts(latency, failing, kind);
      CountAlertsOfParts(latency + failing, traffic, kind);
      CountAlertsOfParts(latency + failing + traffic, silent, kind);
    }
    forall kind, a: Alert ensures CountAlerts([a], kind) == if a.kind == kind then 1 else 0 {
      assert [a][..0] == [];
    }
  }

  /** `sqrt` returns the square root of v. */
  ghost predicate IsSqrtOf(sqrt: real -> real, v: real) {
    sqrt(v) >= 0.0 && sqrt(v) * sqrt(v) == v
  }

  /** m of n values, if any, satisfy the one-sided Chebyshev bound for threshold k. */
  ghost predicate WithinBound(m: nat, n: nat, k: real) {
    m > 0 ==> m as real * (1.0 + k * k) < n as real
  }

  lemma FlaggedWithinBound(data: seq<real>, sqrt: real -> real, k: real)
    requires IsSqrtOf(sqrt, Variance(data)) && k >= 0.0
    ensures WithinBound(CountExceeding(data, Mean(data), StdDev(data, sqrt), k), |data|, k)
  {
    assert IsStd(data, StdDev(data, sqrt));
    OneSidedChebyshev(data, StdDev(data, sqrt), k);
  }

  lemma DetectedCountsFlagged(all: seq<NodeMetrics>, config: Config, sqrt: real -> real)
    requires |all| >= 2
    ensures var alerts, nodes := Detected(all, config, sqrt), Eligible(all, config);
            var latencies, bytes := AvgLatencies(nodes), AvgBytes(nodes);
            && CountAlerts(alerts, LatencySpike)
               == CountExceeding(latencies, Mean(latencies), StdDev(latencies, sqrt), config.latencyZ)
            && CountAlerts(alerts, TrafficSpike)
               == CountExceeding(bytes, Mean(bytes), StdDev(bytes, sqrt), config.trafficZ)
  {
    var nodes := Eligible(all, config);
    var latencies, bytes := AvgLatencies(nodes), AvgBytes(nodes);
    AlertsCountFlagged(nodes, config, Mean(latencies), StdDev(latencies, sqrt), Mean(bytes), StdDev(bytes, sqrt));
  }

  /** Detect never raises more than n / (1 + k^2) spike alerts of a kind, where n nodes had enough
      events and k is the threshold. */
  lemma SpikeAlertsAreFew(all: seq<NodeMetrics>, config: Config, sqrt: real -> real)
    requires IsSqrtOf(sqrt, Variance(AvgLatencies(Eligible(all, config)))) && config.latencyZ >= 0.0
    requires IsSqrtOf(sqrt, Variance(AvgBytes(Eligible(all, config)))) && config.trafficZ >= 0.0
    ensures var alerts, n := Detected(all, config, sqrt), |Eligible(all, config)|;
            && WithinBound(CountAlerts(alerts, LatencySpike), n, config.latencyZ)
            && WithinBound(CountAlerts(alerts, TrafficSpike), n, config.trafficZ)
  {
    var nodes := Eligible(all, config);
    if |all| >= 2 {
      assert |AvgLatencies(nodes)| == |nodes| == |AvgBytes(nodes)|;
      hide *;
      DetectedCountsFlagged(all, config, sqrt);
      FlaggedWithinBound(AvgLatencies(nodes), sqrt, config.latencyZ);
      FlaggedWithinBound(AvgBytes(nodes), sqrt, config.trafficZ);
    } else {
      assert Detected(all, config, sqrt) == [];
    }
  }

  /** With the default thresholds a latency spike needs at least 8 eligible nodes and a traffic spike
      at least 11: smaller meshes can never raise one, whatever a node does. */
  lemma SmallMeshesRaiseNoSpikes(all: seq<NodeMetrics>, sqrt: real -> real)
    requires IsSqrtOf(sqrt, Variance(AvgLatencies(Eligible(all, DEFAULT_CONFIG))))
    requires IsSqrtOf(sqrt, Variance(AvgBytes(Eligible(all, DEFAULT_CONFIG))))
    ensures var alerts, n := Detected(all, DEFAULT_CONFIG, sqrt), |Eligible(all, DEFAULT_CONFIG)|;
            && (CountAlerts(alerts, LatencySpike) > 0 ==> n >= 8)
            && (CountAlerts(alerts, TrafficSpike) > 0 ==> n >= 11)
  {
    SpikeAlertsAreFew(all, DEFAULT_CONFIG, sqrt);
    hide Detected, Eligible, CountAlerts, AvgLatencies, AvgBytes, IsSqrtOf;
  }

  // ----- which node gets which alert

  lemma {:induction false} EligibleIff(all: seq<NodeMetrics>, config: Config, m: NodeMetrics)
    ensures m in Eligible(all, config) <==> m in all && m.totalEvents >= config.minEvents
    ensures multiset(Eligible(all, config))[m] == if m.totalEvents >= config.minEvents then multiset(all)[m] else 0
  {
    if all != [] {
      EligibleIff(all[..|all| - 1], config, m);
      assert all == all[..|all| - 1] + [all[|all| - 1]];
    }
  }

  lemma {:induction false} AlertsOfAllIff(nodes: seq<NodeMetrics>, config: Config, latMean: real, latStd: real,
                                          trafficMean: real, trafficStd: real, a: Alert)
    ensures a in AlertsOfAll(nodes, config, latMean, latStd, trafficMean, trafficStd) <==>
              exists m :: m in nodes && a in AlertsOf(m, config, latMean, latStd, trafficMean, trafficStd)
  {
    if nodes != [] {
      var n := |nodes| - 1;
      assert a in AlertsOfAll(nodes, config, latMean, latStd, trafficMean, trafficStd) <==>
             || a in AlertsOfAll(nodes[..n], config, latMean, latStd, trafficMean, trafficStd)
             || a in AlertsOf(nodes[n], config, latMean, latStd, trafficMean, trafficStd);
      hide *;
      AlertsOfAllIff(nodes[..n], config, latMean, latStd, trafficMean, trafficStd, a);
      assert forall m :: m in nodes <==> m in nodes[..n] || m == nodes[n];
    }
  }

  /** The alerts of one node within the population. */
  ghost function AlertsAbout(m: NodeMetrics, all: seq<NodeMetrics>, config: Config, sqrt: real -> real): seq<Alert> {
    var latencies, bytes := AvgLatencies(Eligible(all, config)), AvgBytes(Eligible(all, config));
    AlertsOf(m, config, Mean(latencies), StdDev(latencies, sqrt), Mean(bytes), StdDev(bytes, sqrt))
  }

  /** Every alert is about one node with enough events, and there are none with fewer than two nodes. */
  lemma AlertComesFromNode(all: seq<NodeMetrics>, config: Config, sqrt: real -> real, a: Alert)
    ensures a in Detected(all, config, sqrt) <==>
              |all| >= 2 && exists m :: m in all && m.totalEvents >= config.minEvents && a in AlertsAbout(m, all, config, sqrt)
  {
    var nodes := Eligible(all, config);
    var latencies, bytes := AvgLatencies(nodes), AvgBytes(nodes);
    AlertsOfAllIff(nodes, config, Mean(latencies), StdDev(latencies, sqrt), Mean(bytes), StdDev(bytes, sqrt), a);
    forall m ensures m in nodes <==> m in all && m.totalEvents >= config.minEvents {
      EligibleIff(all, config, m);
    }
    hide Eligible, AlertsOf, AlertsOfAll, Mean, StdDev, AvgLatencies, AvgBytes;
  }

  /** What the alerts of one node say: which condition each kind stands for, and that all of them name that
      node and carry its value and the threshold. */
  lemma AlertOfNodeIff(m: NodeMetrics, config: Config, latMean: real, latStd: real, trafficMean: real, trafficStd: real,
                       a: Alert)
    ensures a in AlertsOf(m, config, latMean, latStd, trafficMean, trafficStd) <==>
              && a.node == m.node
              && match a.kind
                 case LatencySpike =>
                   && latStd > 0.0 && (m.avgLatencyMs - latMean) / latStd > config.latencyZ
                   && a.value == m.avgLatencyMs && a.threshold == latMean + config.latencyZ * latStd
                   && a.severity == Clamp((m.avgLatencyMs - latMean) / latStd / 5.0, 0.0, 1.0)
                 case TrafficSpike =>
                   && trafficStd > 0.0 && (m.avgBytesPerOp - trafficMean) / trafficStd > config.trafficZ
                   && a.value == m.avgBytesPerOp && a.threshold == trafficMean + config.trafficZ * trafficStd
                   && a.severity == Clamp((m.avgBytesPerOp - trafficMean) / trafficStd / 5.0, 0.0, 1.0)
                 case HighFailureRate =>
                   && m.failureRate > config.failureRate
                   && a.value == m.failureRate && a.threshold == config.failureRate
                   && a.severity == Clamp(m.failureRate, 0.0, 1.0)
                 case NodeUnresponsive =>
                   && m.successes == 0 && m.failures > 0
                   && a.value == 0.0 && a.threshold == 1.0 && a.severity == 1.0
  {
    var latency := SpikeAlerts(m.node, LatencySpike, m.avgLatencyMs, latMean, latStd, config.latencyZ);
    var traffic := SpikeAlerts(m.node, TrafficSpike, m.avgBytesPerOp, trafficMean, trafficStd, config.trafficZ);
    assert a in AlertsOf(m, config, latMean, latStd, trafficMean, trafficStd) <==>
           a in latency || a in FailureAlerts(m, config) || a in traffic || a in UnresponsiveAlerts(m);
    hide *;
    SpikeIff(m.node, LatencySpike, m.avgLatencyMs, latMean, latStd, config.latencyZ, a);
    SpikeIff(m.node, TrafficSpike, m.avgBytesPerOp, trafficMean, trafficStd, config.trafficZ, a);
    FailureAlertIff(m, config, a);
    SilenceAlertIff(m, a);
  }

  lemma SpikeIff(node: NodeId, kind: AlertType, value: real, mean: real, std: real, k: real, a: Alert)
    ensures a in SpikeAlerts(node, kind, value, mean, std, k) <==>
              && a.node == node && a.kind == kind && std > 0.0 && (value - mean) / std > k
              && a.value == value && a.threshold == mean + k * std
              && a.severity == Clamp((value - mean) / std / 5.0, 0.0, 1.0)
  {
    hide Clamp;
    if std > 0.0 {
      assert Spike(node, kind, value, mean, std, k, (value - mean) / std)
             == Alert(node, kind, Clamp((value - mean) / std / 5.0, 0.0, 1.0), value, mean + k * std);
    }
  }

  lemma FailureAlertIff(m: NodeMetrics, config: Config, a: Alert)
    ensures a in FailureAlerts(m, config) <==>
              && a.node == m.node && a.kind == HighFailureRate && m.failureRate > config.failureRate
              && a.value == m.failureRate && a.threshold == config.failureRate
              && a.severity == Clamp(m.failureRate, 0.0, 1.0)
  {
  }

  lemma SilenceAlertIff(m: NodeMetrics, a: Alert)
    ensures a in UnresponsiveAlerts(m) <==>
              && a.node == m.node && a.kind == NodeUnresponsive && m.successes == 0 && m.failures > 0
              && a.value == 0.0 && a.threshold == 1.0 && a.severity == 1.0
  {
  }

  lemma ClampIsNearest(v: real)
    ensures 0.0 <= Clamp(v, 0.0, 1.0) <= 1.0
    ensures 0.0 <= v <= 1.0 ==> Clamp(v, 0.0, 1.0) == v
    ensures v < 0.0 ==> Clamp(v, 0.0, 1.0) == 0.0
    ensures v > 1.0 ==> Clamp(v, 0.0, 1.0) == 1.0
  {
  }

  /** With the default configuration exactly the nodes with at least ten events of which more than 30
      percent failed are reported for their failure rate. */
  lemma FailureRateIsReportedIff(all: seq<NodeMetrics>, sqrt: real -> real, node: NodeId)
    ensures (exists a :: a in Detected(all, DEFAULT_CONFIG, sqrt) && a.kind == HighFailureRate && a.node == node) <==>
              |all| >= 2 && exists m :: m in all && m.node == node && m.totalEvents >= 10 && m.failureRate > 0.30
  {
    var alerts := Detected(all, DEFAULT_CONFIG, sqrt);
    if a :| a in alerts && a.kind == HighFailureRate && a.node == node {
      var m := SourceOf(all, sqrt, a);
      assert m in all && m.node == node && m.totalEvents >= 10 && m.failureRate > 0.30;
    }
    if m :| |all| >= 2 && m in all && m.node == node && m.totalEvents >= 10 && m.failureRate > 0.30 {
      var a := Alert(node, HighFailureRate, Clamp(m.failureRate, 0.0, 1.0), m.failureRate, 0.30);
      IsRaised(all, sqrt, m, a);
      assert a in alerts && a.kind == HighFailureRate && a.node == node;
    }
  }

  /** And exactly those without any success but with a failure are reported as unresponsive. */
  lemma SilenceIsReportedIff(all: seq<NodeMetrics>, sqrt: real -> real, node: NodeId)
    ensures (exists a :: a in Detected(all, DEFAULT_CONFIG, sqrt) && a.kind == NodeUnresponsive && a.node == node) <==>
              |all| >= 2 && exists m :: m in all && m.node == node && m.totalEvents >= 10
                                        && m.successes == 0 && m.failures > 0
  {
    var alerts := Detected(all, DEFAULT_CONFIG, sqrt);
    if a :| a in alerts && a.kind == NodeUnresponsive && a.node == node {
      var m := SourceOf(all, sqrt, a);
      assert m in all && m.node == node && m.totalEvents >= 10 && m.successes == 0 && m.failures > 0;
    }
    if m :| |all| >= 2 && m in all && m.node == node && m.totalEvents >= 10 && m.successes == 0 && m.failures > 0 {
      var a := Alert(node, NodeUnresponsive, 1.0, 0.0, 1.0);
      IsRaised(all, sqrt, m, a);
      assert a in alerts && a.kind == NodeUnresponsive && a.node == node;
    }
  }

  lemma SourceOf(all: seq<NodeMetrics>, sqrt: real -> real, a: Alert) returns (m: NodeMetrics)
    requires a in Detected(all, DEFAULT_CONFIG, sqrt)
    ensures |all| >= 2 && m in all && m.totalEvents >= 10 && a.node == m.node
    ensures a.kind == HighFailureRate ==> m.failureRate > 0.30
    ensures a.kind == NodeUnresponsive ==> m.successes == 0 && m.failures > 0
  {
    hide Detected, AlertsOf, Eligible, AvgLatencies, AvgBytes, Mean, StdDev, Clamp;
    AlertComesFromNode(all, DEFAULT_CONFIG, sqrt, a);
    m :| m in all && m.totalEvents >= 10 && a in AlertsAbout(m, all, DEFAULT_CONFIG, sqrt);
    var latencies, bytes := AvgLatencies(Eligible(all, DEFAULT_CONFIG)), AvgBytes(Eligible(all, DEFAULT_CONFIG));
    AlertOfNodeIff(m, DEFAULT_CONFIG, Mean(latencies), StdDev(latencies, sqrt), Mean(bytes), StdDev(bytes, sqrt), a);
  }

  lemma IsRaised(all: seq<NodeMetrics>, sqrt: real -> real, m: NodeMetrics, a: Alert)
    requires |all| >= 2 && m in all && m.totalEvents >= 10 && a.node == m.node
    requires || (m.failureRate > 0.30 && a.kind == HighFailureRate && a.value == m.failureRate && a.threshold == 0.30
                 && a.severity == Clamp(m.failureRate, 0.0, 1.0))
             || (m.successes == 0 && m.failures > 0 && a.kind == NodeUnresponsive && a.value == 0.0 && a.threshold == 1.0
                 && a.severity == 1.0)
    ensures a in Detected(all, DEFAULT_CONFIG, sqrt)
  {
    hide Detected, AlertsOf, Eligible, AvgLatencies, AvgBytes, Mean, StdDev, Clamp;
    var latencies, bytes := AvgLatencies(Eligible(all, DEFAULT_CONFIG)), AvgBytes(Eligible(all, DEFAULT_CONFIG));
    AlertOfNodeIff(m, DEFAULT_CONFIG, Mean(latencies), StdDev(latencies, sqrt), Mean(bytes), StdDev(bytes, sqrt), a);
    AlertComesFromNode(all, DEFAULT_CONFIG, sqrt, a);
  }

  // ----- the bound is sharp

  function Same(n: nat, a: real): seq<real> {
    seq(n, _ => a)
  }

  /** One value b among i + j values a, at any place. */
  function Outlier(i: nat, j: nat, a: real, b: real): seq<real> {
    Same(i, a) + [b] + Same(j, a)
  }

  lemma {:induction false} SumsOfSame(n: nat, a: real, c: real)
    ensures Sum(Same(n, a)) == Times(n as real, a)
    ensures SquaredDistances(Same(n, a), c) == Times(n as real, Times(a - c, a - c))
  {
    if n > 0 {
      SumsOfSame(n - 1, a, c);
      assert Same(n, a)[..n - 1] == Same(n - 1, a);
      TimesAdds(Times(a - c, a - c), (n - 1) as real, 1.0);
      TimesAdds(a, (n - 1) as real, 1.0);
      TimesUnits(0.0, a);
      TimesUnits(0.0, Times(a - c, a - c));
    } else {
      TimesUnits(0.0, a);
      TimesUnits(0.0, Times(a - c, a - c));
    }
  }

  lemma {:induction false} SumsOfParts(x: seq<real>, y: seq<real>, c: real)
    ensures Sum(x + y) == Sum(x) + Sum(y)
    ensures SquaredDistances(x + y, c) == SquaredDistances(x, c) + SquaredDistances(y, c)
  {
    if y == [] {
      assert x + y == x;
    } else {
      SumsOfParts(x, y[..|y| - 1], c);
      assert (x + y)[..|x + y| - 1] == x + y[..|y| - 1];
    }
  }

  lemma SumsOfOutlier(i: nat, j: nat, a: real, b: real, c: real)
    ensures Sum(Outlier(i, j, a, b)) == Times((i + j) as real, a) + b
    ensures SquaredDistances(Outlier(i, j, a, b), c) == Times((i + j) as real, Times(a - c, a - c)) + Times(b - c, b - c)
  {
    SumsOfParts(Same(i, a), [b], c);
    SumsOfParts(Same(i, a) + [b], Same(j, a), c);
    SumsOfSame(i, a, c);
    SumsOfSame(j, a, c);
    TimesAdds(a, i as real, j as real);
    TimesAdds(Times(a - c, a - c), i as real, j as real);
    assert [b][..0] == [];
    hide Times, Same;
  }

  lemma OutlierMean(n: real, a: real, b: real, mean: real)
    requires n > 0.0 && mean == (Times(n, a) + b) / (n + 1.0)
    ensures var e := (b - a) / (n + 1.0); a - mean == -e && b - mean == Times(n, e)
  {
  }

  lemma OutlierVariance(n: real, e: real, variance: real)
    requires n > 0.0 && e > 0.0
    requires variance == (Times(n, Times(-e, -e)) + Times(Times(n, e), Times(n, e))) / (n + 1.0)
    ensures variance > 0.0 && Times(Times(n, e), Times(n, e)) == Times(n, variance)
  {
    var s := n * (e * e);
    assert (n * e) * (n * e) == n * s;
    assert s + n * s == s * (n + 1.0);
    TimesPositive(e, e);
    TimesPositive(n, e * e);
  }

  /** A single higher value among n equal ones reaches a z-score of exactly the square root of n, so it
      is flagged if and only if 1 + k^2 is less than the number of values; the others never are. */
  lemma OutlierIsFlaggedIff(i: nat, j: nat, a: real, b: real, std: real, k: real)
    requires i + j > 0 && a < b && k >= 0.0 && IsStd(Outlier(i, j, a, b), std)
    ensures var mean := Mean(Outlier(i, j, a, b));
            && (Exceeds(b, mean, std, k) <==> 1.0 + k * k < (i + j + 1) as real)
            && !Exceeds(a, mean, std, k)
  {
    var data, n := Outlier(i, j, a, b), (i + j) as real;
    var mean := Mean(data);
    SumsOfOutlier(i, j, a, b, mean);
    assert |data| as real == n + 1.0;
    OutlierMean(n, a, b, mean);
    var e := (b - a) / (n + 1.0);
    OutlierVariance(n, e, Variance(data));
    TimesPositive(n, e);
    assert std > 0.0 && Times(std, std) == Variance(data);
    OutlierScore(n, b - mean, std, k);
    assert (a - mean) / std <= 0.0;
  }

  lemma {:induction false} CountOfSame(n: nat, a: real, mean: real, std: real, k: real)
    requires !Exceeds(a, mean, std, k)
    ensures CountExceeding(Same(n, a), mean, std, k) == 0
  {
    if n > 0 {
      CountOfSame(n - 1, a, mean, std, k);
      assert Same(n, a)[..n - 1] == Same(n - 1, a);
    }
  }

  lemma {:induction false} CountOfParts(x: seq<real>, y: seq<real>, mean: real, std: real, k: real)
    ensures CountExceeding(x + y, mean, std, k) == CountExceeding(x, mean, std, k) + CountExceeding(y, mean, std, k)
  {
    if y == [] {
      assert x + y == x;
    } else {
      CountOfParts(x, y[..|y| - 1], mean, std, k);
      assert (x + y)[..|x + y| - 1] == x + y[..|y| - 1];
    }
  }

  lemma FlaggedInOutlier(i: nat, j: nat, a: real, b: real, sqrt: real -> real, k: real)
    requires i + j > 0 && a < b && k >= 0.0 && IsSqrtOf(sqrt, Variance(Outlier(i, j, a, b)))
    ensures var data := Outlier(i, j, a, b);
            CountExceeding(data, Mean(data), StdDev(data, sqrt), k) == if 1.0 + k * k < (i + j + 1) as real then 1 else 0
  {
    var data := Outlier(i, j, a, b);
    var mean, std := Mean(data), StdDev(data, sqrt);
    assert IsStd(data, std);
    hide Mean, StdDev, IsStd, Exceeds;
    OutlierIsFlaggedIff(i, j, a, b, std, k);
    CountOfParts(Same(i, a), [b], mean, std, k);
    CountOfParts(Same(i, a) + [b], Same(j, a), mean, std, k);
    CountOfSame(i, a, mean, std, k);
    CountOfSame(j, a, mean, std, k);
    assert [b][..0] == [];
  }

  /** A node with ten events, average latency x and x bytes per operation. */
  function Sample(node: NodeId, x: real): NodeMetrics {
    NodeMetrics(node, 10, 10, 0, 0, 0, 0, x, 0, 0, 0, 0, x, 0.0, 1.0, 0.0, 0.0)
  }

  function OutlierMesh(i: nat, j: nat, a: real, b: real): seq<NodeMetrics> {
    seq(i + 1 + j, p requires 0 <= p < i + 1 + j => Sample(Name(p), if p == i then b else a))
  }

  lemma {:induction false} AllEligible(all: seq<NodeMetrics>, config: Config)
    requires forall m | m in all :: m.totalEvents >= config.minEvents
    ensures Eligible(all, config) == all
  {
    if all != [] {
      AllEligible(all[..|all| - 1], config);
    }
  }

  /** The bounds of 8 and 11 nodes are attained by Detect: with one slower, or busier, node among equal
      ones, a spike is raised exactly from that size on. */
  lemma SpikesStartAt(i: nat, j: nat, a: real, b: real, sqrt: real -> real)
    requires i + j > 0 && a < b && IsSqrtOf(sqrt, Variance(Outlier(i, j, a, b)))
    ensures var alerts, n := Detected(OutlierMesh(i, j, a, b), DEFAULT_CONFIG, sqrt), i + j + 1;
            && CountAlerts(alerts, LatencySpike) == (if n >= 8 then 1 else 0)
            && CountAlerts(alerts, TrafficSpike) == (if n >= 11 then 1 else 0)
  {
    hide Detected, Outlier, OutlierMesh, CountAlerts, CountExceeding, AvgLatencies, AvgBytes, Eligible, IsSqrtOf, Mean,
         StdDev, Variance;
    OutlierMeshData(i, j, a, b);
    DetectedCountsFlagged(OutlierMesh(i, j, a, b), DEFAULT_CONFIG, sqrt);
    FlaggedInOutlier(i, j, a, b, sqrt, 2.5);
    FlaggedInOutlier(i, j, a, b, sqrt, 3.0);
  }

  lemma OutlierMeshData(i: nat, j: nat, a: real, b: real)
    ensures var all := OutlierMesh(i, j, a, b);
            && |all| == i + j + 1 && Eligible(all, DEFAULT_CONFIG) == all
            && AvgLatencies(all) == Outlier(i, j, a, b) == AvgBytes(all)
  {
    var all := OutlierMesh(i, j, a, b);
    AllEligible(all, DEFAULT_CONFIG);
    hide Eligible;
  }

  lemma OutlierScore(n: real, d: real, std: real, k: real)
    requires n > 0.0 && d > 0.0 && std > 0.0 && k >= 0.0 && Times(d, d) == Times(n, Times(std, std))
    ensures d / std > k <==> k * k < n
  {
    var z := d / std;
    Unscale(d, std, z);
    TimesPositive(std, std);
    TimesCommutes(n, Times(std, std));
    Cancel(Times(std, std), Times(z, z), n);
    assert Times(k, k) == k * k;
    if z > k {
      TimesGrows(k, z);
    } else {
      TimesGrows(z, k);
    }
  }
}
