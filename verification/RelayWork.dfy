/** How much work one relayed request can cause: bounds, and when they are reached.

    Handler activations are counted without those by replica requests, saves with them. */
module RelayWork {
  import opened Common
  import opened Relay
  import opened RelayRouting
  import Replication
  import Routing

  /** A rerouted request has this many hops left at most: one of the ten hops is popped. */
  const REACH: nat := Routing.REROUTE_MAX_HOPS - 1

  function Pow2(n: nat): nat {
    if n == 0 then 1 else 2 * Pow2(n - 1)
  }

  function Copies(req: Request): nat {
    if req.replicationFactor > 1 then req.replicationFactor else 1
  }

  /** The most activations from a node with that many hops left, if alternative routes leave `reach`. */
  function MaxActivations(ttl: nat, hops: nat, reach: nat): nat {
    if ttl == 0 || hops == 0 then 1
    else 1 + MaxActivations(ttl - 1, hops - 1, reach) + MaxActivations(ttl - 1, reach, reach)
  }

  /** The most saves, if `copies` copies are asked for. */
  function MaxSaves(copies: nat, ttl: nat, hops: nat, reach: nat): nat {
    if ttl == 0 then 0
    else if ttl == 1 || hops == 0 then copies
    else 1 + MaxSaves(copies, ttl - 1, hops - 1, reach) + MaxSaves(copies, ttl - 1, reach, reach)
  }

  /** The most saves over all hop lists and routes. */
  function SaveCeiling(copies: nat, ttl: nat): nat {
    if ttl == 0 then 0 else if ttl == 1 then copies else 2 * SaveCeiling(copies, ttl - 1) + 1
  }

  lemma {:induction false} SaveCeilingClosedForm(copies: nat, ttl: nat)
    requires ttl > 0
    ensures SaveCeiling(copies, ttl) == (copies + 1) * Pow2(ttl - 1) - 1
    ensures copies <= SaveCeiling(copies, ttl)
  {
    if ttl > 1 {
      SaveCeilingClosedForm(copies, ttl - 1);
    }
  }

  // ----- the recurrences

  lemma {:induction false} MoreHopsMoreWork(copies: nat, ttl: nat, hops: nat, more: nat, reach: nat)
    requires hops <= more
    ensures 1 <= MaxActivations(ttl, hops, reach) <= MaxActivations(ttl, more, reach)
    ensures MaxSaves(copies, ttl, hops, reach) <= MaxSaves(copies, ttl, more, reach)
    ensures ttl > 0 ==> copies <= MaxSaves(copies, ttl, hops, reach)
  {
    if ttl > 0 && more > 0 {
      MoreHopsMoreWork(copies, ttl - 1, if hops > 0 then hops - 1 else 0, more - 1, reach);
      MoreHopsMoreWork(copies, ttl - 1, reach, reach, reach);
    }
  }

  /** Hops that the TTL cannot reach do not count. */
  lemma {:induction false} SpareHops(copies: nat, ttl: nat, hops: nat, reach: nat)
    requires ttl <= hops + 1
    ensures MaxSaves(copies, ttl, hops, reach) == MaxSaves(copies, ttl, if ttl > 0 then ttl - 1 else 0, reach)
  {
    if ttl > 1 {
      SpareHops(copies, ttl - 1, hops - 1, reach);
    }
  }

  /** The binary tree of calls is complete exactly when all hop lists outlast the TTL. */
  lemma {:induction false} CompleteTree(ttl: nat, hops: nat, reach: nat)
    ensures MaxActivations(ttl, hops, reach) <= Pow2(ttl + 1) - 1
    ensures MaxActivations(ttl, hops, reach) == Pow2(ttl + 1) - 1 <==> ttl <= hops && ttl <= reach + 1
  {
    Pow2Positive(ttl);
    if ttl > 0 && hops > 0 {
      CompleteTree(ttl - 1, hops - 1, reach);
      CompleteTree(ttl - 1, reach, reach);
    }
  }

  lemma {:induction false} CompleteSaves(copies: nat, ttl: nat, hops: nat, reach: nat)
    ensures MaxSaves(copies, ttl, hops, reach) <= SaveCeiling(copies, ttl)
    ensures MaxSaves(copies, ttl, hops, reach) == SaveCeiling(copies, ttl) <==>
              ttl <= 1 || (ttl <= hops + 1 && ttl <= reach + 2)
  {
    if ttl > 1 {
      SaveCeilingClosedForm(copies, ttl - 1);
      if hops > 0 {
        CompleteSaves(copies, ttl - 1, hops - 1, reach);
        CompleteSaves(copies, ttl - 1, reach, reach);
      }
    }
  }

  lemma {:induction false} Pow2Positive(n: nat)
    ensures Pow2(n) >= 1
  {
    if n > 0 {
      Pow2Positive(n - 1);
    }
  }

  // ----- the bounds hold

  /** No alternative route that was used leaves more than `reach` hops. */
  ghost predicate Reaches(reroutes: seq<Reroute>, reach: nat) {
    forall r | r in reroutes :: |r.hops| <= reach + 1
  }

  ghost predicate WithinBudget(run: Run, copies: nat, ttl: nat, hops: nat, reach: nat) {
    Reaches(run.reroutes, reach) ==>
      run.activations <= MaxActivations(ttl, hops, reach) && run.saves <= MaxSaves(copies, ttl, hops, reach)
  }

  lemma {:induction false} WorkWithin(hash: Hash, self: NodeId, req: Request, stores: Stores, fate: Fate, reach: nat)
    ensures WithinBudget(RelayChunk(hash, self, req, stores, fate), Copies(req), Level(req), |req.remainingHops|, reach)
    decreases Level(req), 1
  {
    hide MaxActivations, MaxSaves;
    MoreHopsMoreWork(Copies(req), Level(req), |req.remainingHops|, |req.remainingHops|, reach);
    if Rejection(hash, req) == None {
      if IsFinalDestination(self, req.remainingHops) {
        DestinationWork(hash, self, req, stores, fate);
      } else {
        TriesWithin(hash, self, req, stores, fate, reach);
        hide Tries;
      }
    }
  }

  /** Two forwarded calls and one save of its own are a node's share. */
  lemma {:induction false} TriesWithin(hash: Hash, self: NodeId, req: Request, stores: Stores, fate: Fate, reach: nat)
    requires req.ttl > 0 && req.remainingHops != []
    ensures var tries := Tries(hash, self, req, stores, fate);
            Reaches(tries.reroutes, reach) ==>
              && tries.activations < MaxActivations(req.ttl, |req.remainingHops|, reach)
              && tries.saves < MaxSaves(Copies(req), req.ttl, |req.remainingHops|, reach)
    decreases Level(req), 0
  {
    var hops, ttl, copies := req.remainingHops, req.ttl - 1, Copies(req);
    ForwardedWork(hash, hops[0], Next(req, hops[1..]), stores, fate.forward, reach);
    var first := Forward(hash, hops[0], Next(req, hops[1..]), stores, fate.forward);
    if first.reply.Err? && fate.reroute.Some? && fate.reroute.value != [] {
      var newHops := fate.reroute.value;
      ForwardedWork(hash, newHops[0], Next(req, newHops[1..]), first.stores, fate.retry, reach);
      var second := Forward(hash, newHops[0], Next(req, newHops[1..]), first.stores, fate.retry);
      var reroute := Reroute(self, hops[|hops| - 1], hops[0], newHops);
      assert Tries(hash, self, req, stores, fate) == Both(first, reroute, second);
      hide *;
      BothWithin(first, reroute, second, copies, ttl, |hops| - 1, reach);
    } else {
      assert Tries(hash, self, req, stores, fate) == first;
      hide Tries, Forward, Reaches;
      MoreHopsMoreWork(copies, ttl, reach, reach, reach);
    }
  }

  lemma BothWithin(first: Run, reroute: Reroute, second: Run, copies: nat, ttl: nat, hops: nat, reach: nat)
    requires copies > 0 && reroute.hops != []
    requires WithinBudget(first, copies, ttl, hops, reach)
    requires WithinBudget(second, copies, ttl, |reroute.hops| - 1, reach)
    ensures var both := Both(first, reroute, second);
            Reaches(both.reroutes, reach) ==>
              && both.activations < MaxActivations(ttl + 1, hops + 1, reach)
              && both.saves < MaxSaves(copies, ttl + 1, hops + 1, reach)
  {
    ReachesParts(first, reroute, second, reach);
    if |reroute.hops| <= reach + 1 {
      MoreHopsMoreWork(copies, ttl, |reroute.hops| - 1, reach, reach);
    }
    hide Reaches;
  }

  lemma ReachesParts(first: Run, reroute: Reroute, second: Run, reach: nat)
    ensures Reaches(Both(first, reroute, second).reroutes, reach) ==>
              Reaches(first.reroutes, reach) && Reaches(second.reroutes, reach) && |reroute.hops| <= reach + 1
  {
    var all := Both(first, reroute, second).reroutes;
    assert reroute in all;
    assert forall r | r in first.reroutes || r in second.reroutes :: r in all;
  }

  lemma {:induction false} ForwardedWork(hash: Hash, target: NodeId, req: Request, stores: Stores, rpc: Rpc, reach: nat)
    ensures WithinBudget(Forward(hash, target, req, stores, rpc), Copies(req), Level(req), |req.remainingHops|, reach)
    decreases Level(req), 2
  {
    if rpc.Delivered? {
      WorkWithin(hash, target, req, stores, rpc.remote, reach);
    }
  }

  lemma DestinationWork(hash: Hash, self: NodeId, req: Request, stores: Stores, fate: Fate)
    requires Rejection(hash, req) == None && IsFinalDestination(self, req.remainingHops)
    ensures var run := RelayChunk(hash, self, req, stores, fate);
            run.activations == 1 && run.saves <= Copies(req) && run.reroutes == []
  {
    if fate.saveOk && req.replicationFactor > 1 {
      var targets := Replication.Targets(fate.registry, req.transferId, req.replicationFactor, {self});
      ReplicaSaves(hash, targets, ReplicaRequest(req), stores[(self, req.Key()) := req.data.value], fate.replicas);
    }
  }

  lemma ReplicaSavesOnce(hash: Hash, target: NodeId, req: Request, stores: Stores, rpc: Rpc)
    requires req.remainingHops == [] && req.replicationFactor <= 1
    ensures Forward(hash, target, req, stores, rpc).saves <= 1
    ensures rpc.Delivered? && Rejection(hash, req) == None ==> Forward(hash, target, req, stores, rpc).saves == 1
  {
    if rpc.Delivered? && Rejection(hash, req) == None {
      assert RelayChunk(hash, target, req, stores, rpc.remote) == AtDestination(hash, target, req, stores, rpc.remote);
    }
  }

  lemma {:induction false} ReplicaSaves(hash: Hash, targets: seq<NodeId>, req: Request, stores: Stores, rpcs: seq<Rpc>)
    requires req.remainingHops == [] && req.replicationFactor <= 1
    ensures Replicate(hash, targets, req, stores, rpcs).saves <= |targets|
    ensures Rejection(hash, req) == None && |targets| <= |rpcs| && (forall r | r in rpcs :: r.Delivered?) ==>
              Replicate(hash, targets, req, stores, rpcs).saves == |targets|
    decreases |targets|
  {
    if targets != [] && rpcs != [] {
      ReplicaSavesOnce(hash, targets[0], req, stores, rpcs[0]);
      var first := Forward(hash, targets[0], req, stores, rpcs[0]);
      ReplicaSaves(hash, targets[1..], req, first.stores, rpcs[1..]);
    }
  }

  function LongestReroute(reroutes: seq<Reroute>): nat {
    if reroutes == [] then 0 else
      var rest := LongestReroute(reroutes[1..]);
      if |reroutes[0].hops| > rest then |reroutes[0].hops| else rest
  }

  lemma {:induction false} LongestRerouteReaches(reroutes: seq<Reroute>)
    ensures Reaches(reroutes, LongestReroute(reroutes))
  {
    if reroutes != [] {
      LongestRerouteReaches(reroutes[1..]);
    }
  }

  /** Whatever routes are used and whatever fails, a request with TTL t causes at most 2^(t+1) - 1
      activations and, with c copies asked for, at most (c+1) * 2^(t-1) - 1 saves. */
  lemma WorkIsBounded(hash: Hash, self: NodeId, req: Request, stores: Stores, fate: Fate)
    ensures var run, ttl := RelayChunk(hash, self, req, stores, fate), Level(req);
            && run.activations <= Pow2(ttl + 1) - 1
            && run.saves <= if ttl == 0 then 0 else (Copies(req) + 1) * Pow2(ttl - 1) - 1
  {
    var run, ttl, hops := RelayChunk(hash, self, req, stores, fate), Level(req), |req.remainingHops|;
    var reach := LongestReroute(run.reroutes);
    LongestRerouteReaches(run.reroutes);
    WorkWithin(hash, self, req, stores, fate, reach);
    CompleteTree(ttl, hops, reach);
    CompleteSaves(Copies(req), ttl, hops, reach);
    if ttl > 0 {
      SaveCeilingClosedForm(Copies(req), ttl);
    }
  }

  // ----- runs that the rerouter allows

  /** Every alternative route used is what FindAlternativeRoute computes from some routing table: a
      longest chain of at most ten hops that avoids the node that failed. */
  ghost predicate Realistic(run: Run) {
    forall r | r in run.reroutes :: CanAnswer(r)
  }

  ghost predicate CanAnswer(r: Reroute) {
    exists answer: Answer :: Computed(answer, r)
  }

  /** The exact bounds, for the TTL and the number of hops of the request. */
  lemma RealisticWork(hash: Hash, self: NodeId, req: Request, stores: Stores, fate: Fate)
    requires Realistic(RelayChunk(hash, self, req, stores, fate))
    ensures var run := RelayChunk(hash, self, req, stores, fate);
            && run.activations <= MaxActivations(Level(req), |req.remainingHops|, REACH)
            && run.saves <= MaxSaves(Copies(req), Level(req), |req.remainingHops|, REACH)
  {
    WorkWithin(hash, self, req, stores, fate, REACH);
    var reroutes := RelayChunk(hash, self, req, stores, fate).reroutes;
    forall r | r in reroutes ensures |r.hops| <= REACH + 1 {
      assert CanAnswer(r);
      var answer: Answer :| Computed(answer, r);
    }
  }

  // ----- the bounds are reached

  lemma NamesTail(i: nat, n: nat)
    requires n > 0
    ensures |Names(i, n)| == n && Names(i, n)[0] == Name(i) && Names(i, n)[n - 1] == Name(i + n - 1)
    ensures Names(i, n)[1..] == Names(i + 1, n - 1)
  {
  }

  lemma NamesLengths(i: nat, n: nat)
    ensures |Names(i, n)| == n
    ensures forall m | 0 <= m < n :: |Names(i, n)[m]| == i + m + 1
  {
    forall m | 0 <= m < n ensures |Names(i, n)[m]| == i + m + 1 {
      assert Names(i, n)[m] == Name(i + m);
    }
  }

  /** Table entries that lead along the nodes, and no further. */
  function Rows(nodes: seq<NodeId>, target: NodeId): map<(NodeId, NodeId), Routing.Route> {
    if |nodes| <= 1 then map[] else
      var n := |nodes| - 1;
      Rows(nodes[..n], target)[(nodes[n - 1], target) := Routing.Route(nodes[n], 0)]
  }

  lemma {:induction false} RowsOrigins(nodes: seq<NodeId>, target: NodeId)
    requires nodes != []
    ensures forall key | key in Rows(nodes, target) :: key.0 in nodes[..|nodes| - 1]
  {
    if |nodes| > 1 {
      var n := |nodes| - 1;
      RowsOrigins(nodes[..n], target);
      assert forall p | p in nodes[..n - 1] :: p in nodes[..n];
    }
  }

  lemma {:induction false} RowsLead(nodes: seq<NodeId>, target: NodeId, m: nat)
    requires Routing.Distinct(nodes) && m + 1 < |nodes|
    ensures (nodes[m], target) in Rows(nodes, target) && Rows(nodes, target)[(nodes[m], target)].nextHop == nodes[m + 1]
  {
    var n := |nodes| - 1;
    if m + 1 < n {
      RowsLead(nodes[..n], target, m);
      assert nodes[m] != nodes[n - 1];
    }
  }

  /** Any path over new nodes of at most ten hops is a route that the rerouter can give. */
  lemma NewPathIsAnswer(r: Reroute)
    requires 0 < |r.hops| <= Routing.REROUTE_MAX_HOPS && Routing.Distinct([r.source] + r.hops)
    requires r.failed !in r.hops && r.target !in r.hops
    ensures CanAnswer(r)
  {
    var nodes, excluded, k := [r.source] + r.hops, {r.failed}, |r.hops|;
    var db := Routing.Database(Rows(nodes, r.target), {}, false);
    RowsOrigins(nodes, r.target);
    forall m | 0 <= m < k ensures Routing.IsHop(db, r.source, r.target, excluded, r.hops, m) {
      RowsLead(nodes, r.target, m);
      assert Routing.Origin(r.source, r.hops, m) == nodes[m] && r.hops[m] == nodes[m + 1];
      assert m > 0 ==> nodes[m] == r.hops[m - 1];
    }
    assert Routing.Origin(r.source, r.hops, k) == nodes[k];
    assert (nodes[k], r.target) !in db.routes;
    assert Computed(Answer(db, excluded), r);
  }

  lemma NamesAreNew(i: nat, failed: nat, j: nat, k: nat)
    requires i < failed < j
    ensures Routing.Distinct([Name(i)] + Names(j, k))
    ensures Name(failed) !in Names(j, k) && Name(j - 1) !in Names(j, k)
  {
    NamesLengths(j, k);
    var nodes := [Name(i)] + Names(j, k);
    assert forall a, b | 0 <= a < b < |nodes| :: |nodes[a]| < |nodes[b]|;
  }

  /** How many hops the alternative routes have: as many as possible, or for the most saves as many as
      let the chunk arrive. */
  function Detour(ttl: nat, saving: bool): nat
    requires ttl > 0
  {
    if saving && ttl <= Routing.REROUTE_MAX_HOPS then ttl - 1 else Routing.REROUTE_MAX_HOPS
  }

  /** Every call does its work but loses the reply, so node i, which has n hops left, tries both routes
      and then saves. The alternative route runs over nodes that were not used yet. */
  function Lossy(ttl: nat, i: nat, n: nat, copies: nat, saving: bool): Fate
    decreases ttl
  {
    if ttl == 0 || n == 0 then AllReplicas(copies) else
      var k := Detour(ttl, saving);
      Fate(true,
           Delivered(Lossy(ttl - 1, i + 1, n - 1, copies, saving), true),
           Some(Names(i + n + 1, k)),
           if k == 0 then NotDelivered else Delivered(Lossy(ttl - 1, i + n + 1, k - 1, copies, saving), true),
           None, [])
  }

  /** At a destination there are enough peers, and every replica request arrives. */
  function AllReplicas(copies: nat): Fate {
    Fate(true, NotDelivered, None, NotDelivered, Some(Names(0, copies + 1)),
         seq(copies, _ => Delivered(Fate(true, NotDelivered, None, NotDelivered, None, []), false)))
  }

  lemma EnoughCandidates(copies: nat, transferId: NodeId, self: NodeId)
    ensures Replication.Distinct(Names(0, copies + 1))
    ensures |Replication.Candidates(Names(0, copies + 1), transferId, self)| >= copies - 1
  {
    var names := Names(0, copies + 1);
    NamesLengths(0, copies + 1);
    Replication.DistinctSize(names);
    assert Replication.Candidates(names, transferId, self) == ((set p | p in names) - {self}) - {transferId};
  }

  lemma DestinationSaves(hash: Hash, self: NodeId, req: Request, stores: Stores)
    requires Rejection(hash, req) == None && req.remainingHops == [] && req.replicationFactor < 0x8000_0000
    ensures RelayChunk(hash, self, req, stores, AllReplicas(Copies(req))).saves == Copies(req)
  {
    var leaf := AllReplicas(Copies(req));
    if req.replicationFactor > 1 {
      EnoughCandidates(Copies(req), req.transferId, self);
      var targets := Replication.Targets(leaf.registry, req.transferId, req.replicationFactor, {self});
      Replication.ReplicaCount(leaf.registry.value, req.transferId, req.replicationFactor, self);
      ReplicaSaves(hash, targets, ReplicaRequest(req), stores[(self, req.Key()) := req.data.value], leaf.replicas);
    }
  }

  /** A node whose two calls both lose the reply adds one activation and one save to all their work. */
  lemma BothRepliesLost(hash: Hash, self: NodeId, req: Request, stores: Stores, fate: Fate)
    requires Rejection(hash, req) == None && !IsFinalDestination(self, req.remainingHops)
    requires fate.saveOk && fate.reroute.Some? && fate.reroute.value != []
    requires fate.forward.Delivered? && fate.forward.replyLost && fate.retry.Delivered? && fate.retry.replyLost
    ensures var hops, newHops := req.remainingHops, fate.reroute.value;
            var first := RelayChunk(hash, hops[0], Next(req, hops[1..]), stores, fate.forward.remote);
            var second := RelayChunk(hash, newHops[0], Next(req, newHops[1..]), first.stores, fate.retry.remote);
            var run := RelayChunk(hash, self, req, stores, fate);
            && run.activations == 1 + first.activations + second.activations
            && run.saves == 1 + first.saves + second.saves
            && run.reroutes == first.reroutes + [Reroute(self, hops[|hops| - 1], hops[0], newHops)] + second.reroutes
  {
    var hops, newHops := req.remainingHops, fate.reroute.value;
    var first := Forward(hash, hops[0], Next(req, hops[1..]), stores, fate.forward);
    var second := Forward(hash, newHops[0], Next(req, newHops[1..]), first.stores, fate.retry);
    assert RelayChunk(hash, self, req, stores, fate)
           == Settle(self, req, Tries(hash, self, req, stores, fate), true);
    assert Tries(hash, self, req, stores, fate)
           == Both(first, Reroute(self, hops[|hops| - 1], hops[0], newHops), second);
    hide RelayChunk, Tries;
  }

  lemma NotFinal(i: nat, n: nat)
    requires n > 0
    ensures !IsFinalDestination(Name(i), Names(i + 1, n))
  {
    assert |Name(i)| < |Name(i + 1)|;
  }

  lemma LossyFate(ttl: nat, i: nat, n: nat, copies: nat, saving: bool)
    requires ttl > 0 && n > 0 && Detour(ttl, saving) > 0
    ensures var k, fate := Detour(ttl, saving), Lossy(ttl, i, n, copies, saving);
            && fate.saveOk && fate.reroute == Some(Names(i + n + 1, k)) && |Names(i + n + 1, k)| == k
            && fate.forward == Delivered(Lossy(ttl - 1, i + 1, n - 1, copies, saving), true)
            && fate.retry == Delivered(Lossy(ttl - 1, i + n + 1, k - 1, copies, saving), true)
  {
  }

  /** The run is possible and does all the work it can. */
  ghost predicate Worked(run: Run, copies: nat, ttl: nat, hops: nat, saving: bool) {
    && Realistic(run)
    && if saving then run.saves == MaxSaves(copies, ttl, hops, REACH)
       else run.activations == MaxActivations(ttl, hops, REACH)
  }

  /** The run over numbered nodes: node i with the next n nodes as its hops. */
  lemma {:induction false} LossyRun(hash: Hash, i: nat, n: nat, req: Request, stores: Stores, saving: bool)
    requires req.transferId != "" && HashMatches(hash, req) && req.replicationFactor < 0x8000_0000
    requires req.ttl >= 0 && req.remainingHops == Names(i + 1, n)
    requires saving ==> n < req.ttl
    ensures Worked(RelayChunk(hash, Name(i), req, stores, Lossy(req.ttl, i, n, Copies(req), saving)),
                   Copies(req), req.ttl, n, saving)
    decreases req.ttl, 1
  {
    if req.ttl == 0 {
      assert RelayChunk(hash, Name(i), req, stores, Lossy(0, i, n, Copies(req), saving)).reroutes == [];
    } else if n == 0 {
      DestinationWork(hash, Name(i), req, stores, AllReplicas(Copies(req)));
      DestinationSaves(hash, Name(i), req, stores);
    } else {
      LossyNode(hash, i, n, req, stores, saving);
    }
  }

  lemma {:induction false} LossyNode(hash: Hash, i: nat, n: nat, req: Request, stores: Stores, saving: bool)
    requires req.transferId != "" && HashMatches(hash, req) && req.replicationFactor < 0x8000_0000
    requires req.ttl > 0 && n > 0 && req.remainingHops == Names(i + 1, n)
    requires saving ==> n < req.ttl
    ensures Worked(RelayChunk(hash, Name(i), req, stores, Lossy(req.ttl, i, n, Copies(req), saving)),
                   Copies(req), req.ttl, n, saving)
    decreases req.ttl, 0
  {
    hide *;
    var k, copies := Detour(req.ttl, saving), Copies(req);
    var fate, newHops := Lossy(req.ttl, i, n, copies, saving), Names(i + n + 1, k);
    DetourLength(req.ttl, n, saving);
    DetourIsAnswer(i, n, k);
    NotFinal(i, n);
    NamesTail(i + 1, n);
    NamesTail(i + n + 1, k);
    var next, alternative := Next(req, req.remainingHops[1..]), Next(req, newHops[1..]);
    LossyFate(req.ttl, i, n, copies, saving);
    NextIsAccepted(hash, req, req.remainingHops[1..]);
    NextIsAccepted(hash, req, newHops[1..]);
    BothRepliesLost(hash, Name(i), req, stores, fate);
    LossyRun(hash, i + 1, n - 1, next, stores, saving);
    var first := RelayChunk(hash, Name(i + 1), next, stores, fate.forward.remote);
    LossyRun(hash, i + n + 1, k - 1, alternative, first.stores, saving);
    var second := RelayChunk(hash, Name(i + n + 1), alternative, first.stores, fate.retry.remote);
    BothWorked(RelayChunk(hash, Name(i), req, stores, fate), first, Reroute(Name(i), Name(i + n), Name(i + 1), newHops),
               second, copies, req.ttl, n, saving);
  }

  lemma DetourLength(ttl: nat, n: nat, saving: bool)
    requires 0 < n && 0 < ttl && (saving ==> n < ttl)
    ensures 0 < Detour(ttl, saving) <= Routing.REROUTE_MAX_HOPS
    ensures saving ==> Detour(ttl, saving) < ttl
  {
  }

  lemma NextIsAccepted(hash: Hash, req: Request, hops: seq<NodeId>)
    requires req.transferId != "" && HashMatches(hash, req) && req.ttl > 0
    ensures Rejection(hash, req) == None
    ensures var next := Next(req, hops);
            && next.transferId != "" && HashMatches(hash, next) && next.remainingHops == hops
            && next.ttl == req.ttl - 1 && next.replicationFactor == req.replicationFactor && Copies(next) == Copies(req)
  {
  }

  lemma DetourIsAnswer(i: nat, n: nat, k: nat)
    requires 0 < n && 0 < k <= Routing.REROUTE_MAX_HOPS
    ensures CanAnswer(Reroute(Name(i), Name(i + n), Name(i + 1), Names(i + n + 1, k)))
  {
    NamesAreNew(i, i + 1, i + n + 1, k);
    NamesTail(i + n + 1, k);
    NewPathIsAnswer(Reroute(Name(i), Name(i + n), Name(i + 1), Names(i + n + 1, k)));
  }

  lemma BothWorked(run: Run, first: Run, reroute: Reroute, second: Run, copies: nat, ttl: nat, n: nat, saving: bool)
    requires 0 < n && 0 < ttl && (saving ==> n < ttl) && CanAnswer(reroute)
    requires Worked(first, copies, ttl - 1, n - 1, saving)
    requires Detour(ttl, saving) > 0 && Worked(second, copies, ttl - 1, Detour(ttl, saving) - 1, saving)
    requires run.activations == 1 + first.activations + second.activations
    requires run.saves == 1 + first.saves + second.saves
    requires run.reroutes == first.reroutes + [reroute] + second.reroutes
    ensures Worked(run, copies, ttl, n, saving)
  {
    if saving && ttl <= Routing.REROUTE_MAX_HOPS {
      SpareHops(copies, ttl - 1, REACH, REACH);
    }
    hide CanAnswer;
  }

  // ----- when the general ceilings are reached

  ghost predicate ActivationCeilingReached(hash: Hash, ttl: nat) {
    exists self, req: Request, stores, fate ::
      req.ttl == ttl && ReachesActivations(RelayChunk(hash, self, req, stores, fate), ttl)
  }

  ghost predicate ReachesActivations(run: Run, ttl: nat) {
    Realistic(run) && run.activations == Pow2(ttl + 1) - 1
  }

  ghost predicate SaveCeilingReached(hash: Hash, ttl: nat, factor: int) {
    exists self, req: Request, stores, fate ::
      req.ttl == ttl && req.replicationFactor == factor
      && ReachesSaves(RelayChunk(hash, self, req, stores, fate), Copies(req), ttl)
  }

  ghost predicate ReachesSaves(run: Run, copies: nat, ttl: nat) {
    Realistic(run) && run.saves == SaveCeiling(copies, ttl)
  }

  function Sample(ttl: nat, hops: nat, factor: int): Request {
    Request("transfer", 0, Some([0]), "", Names(1, hops), factor, ttl)
  }

  lemma SampleIsAccepted(hash: Hash, ttl: nat, hops: nat, factor: int)
    ensures var req := Sample(ttl, hops, factor);
            && req.transferId != "" && HashMatches(hash, req) && req.remainingHops == Names(1, hops)
            && req.ttl == ttl && req.replicationFactor == factor
  {
  }

  lemma LossyRunReachesActivations(hash: Hash, ttl: nat)
    requires ttl <= Routing.REROUTE_MAX_HOPS
    ensures ActivationCeilingReached(hash, ttl)
  {
    var req := Sample(ttl, ttl, 1);
    SampleIsAccepted(hash, ttl, ttl, 1);
    CompleteTree(ttl, ttl, REACH);
    hide RelayChunk, Realistic, MaxActivations, MaxSaves, Pow2, Sample, Names, Lossy, Copies;
    LossyRun(hash, 0, ttl, req, map[], false);
    assert ReachesActivations(RelayChunk(hash, Name(0), req, map[], Lossy(req.ttl, 0, ttl, Copies(req), false)), ttl);
  }

  lemma LossyRunReachesSaves(hash: Hash, ttl: nat, factor: int)
    requires factor < 0x8000_0000 && 0 < ttl <= Routing.REROUTE_MAX_HOPS + 1
    ensures SaveCeilingReached(hash, ttl, factor)
  {
    var req := Sample(ttl, ttl - 1, factor);
    SampleIsAccepted(hash, ttl, ttl - 1, factor);
    CompleteSaves(Copies(req), ttl, ttl - 1, REACH);
    hide RelayChunk, Realistic, MaxActivations, MaxSaves, SaveCeiling, Sample, Names, Lossy, Copies;
    LossyRun(hash, 0, ttl - 1, req, map[], true);
    assert ReachesSaves(RelayChunk(hash, Name(0), req, map[], Lossy(req.ttl, 0, ttl - 1, Copies(req), true)),
                        Copies(req), ttl);
  }

  /** 2^(t+1) - 1 activations are possible up to TTL 10 and no further, because alternative routes have
      at most ten hops. */
  lemma ActivationCeilingReachedIff(hash: Hash, ttl: nat)
    ensures ActivationCeilingReached(hash, ttl) <==> ttl <= 10
  {
    hide RelayChunk, Realistic, MaxActivations, MaxSaves, Pow2;
    if ttl <= Routing.REROUTE_MAX_HOPS {
      LossyRunReachesActivations(hash, ttl);
    } else if ActivationCeilingReached(hash, ttl) {
      var self, req: Request, stores, fate :|
        req.ttl == ttl && ReachesActivations(RelayChunk(hash, self, req, stores, fate), ttl);
      RealisticWork(hash, self, req, stores, fate);
      CompleteTree(ttl, |req.remainingHops|, REACH);
    }
  }

  /** (c+1) * 2^(t-1) - 1 saves are possible up to TTL 11 and no further, for every replication factor. */
  lemma SaveCeilingReachedIff(hash: Hash, ttl: nat, factor: int)
    requires factor < 0x8000_0000 && ttl > 0
    ensures SaveCeilingReached(hash, ttl, factor) <==> ttl <= 11
  {
    hide RelayChunk, Realistic, MaxActivations, MaxSaves, SaveCeiling, Copies;
    if ttl <= Routing.REROUTE_MAX_HOPS + 1 {
      LossyRunReachesSaves(hash, ttl, factor);
    } else if SaveCeilingReached(hash, ttl, factor) {
      var self, req: Request, stores, fate :|
        req.ttl == ttl && req.replicationFactor == factor
        && ReachesSaves(RelayChunk(hash, self, req, stores, fate), Copies(req), ttl);
      RealisticWork(hash, self, req, stores, fate);
      CompleteSaves(Copies(req), ttl, |req.remainingHops|, REACH);
    }
  }
}
