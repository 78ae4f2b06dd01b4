/** Which peers get a replica: internal/relay/replicator.go on top of FindPeers in
    services/discovery/handler/handler.go. A peer is represented by its node id; the registry lists
    each id once, because it is the primary key of the peers table. */
module Replication {
  import opened Common

  datatype FindPeersError = InvalidArgument | Internal

  /** Go's int32 conversion: the low 32 bits, read as two's complement. */
  function Int32(x: int): int {
    (x + 0x8000_0000) % 0x1_0000_0000 - 0x8000_0000
  }

  // ----- specification

  /** The elements of `peers` outside `banned`, in order. */
  function Without(peers: seq<NodeId>, banned: set<NodeId>): seq<NodeId> {
    if peers == [] then [] else
      var rest := Without(peers[..|peers| - 1], banned);
      var last := peers[|peers| - 1];
      if last in banned then rest else rest + [last]
  }

  function Take(peers: seq<NodeId>, n: nat): seq<NodeId> {
    if n < |peers| then peers[..n] else peers
  }

  function Limit(count: int, available: nat): nat {
    if count <= 0 || count > available then available else count
  }

  function FoundPeers(registry: seq<NodeId>, node: NodeId, count: int): seq<NodeId> {
    Take(Without(registry, {node}), Limit(count, |registry|))
  }

  /** The peers that get a replica; None stands for a registry that cannot be read. */
  function Targets(registry: Option<seq<NodeId>>, transferId: NodeId, replicationFactor: int,
                   exclude: set<NodeId>): seq<NodeId>
  {
    if replicationFactor <= 1 || registry == None || transferId == "" then [] else
      Take(Without(FoundPeers(registry.value, transferId, Int32(replicationFactor * 2)), exclude),
           replicationFactor - 1)
  }

  // ----- the loops of the source

  method FindPeers(registry: Option<seq<NodeId>>, node: NodeId, count: int)
    returns (r: Result<seq<NodeId>, FindPeersError>)
    ensures r == if node == "" then Err(InvalidArgument)
                 else if registry == None then Err(Internal)
                 else Ok(FoundPeers(registry.value, node, count))
  {
    if node == "" {
      return Err(InvalidArgument);
    }
    if registry == None {
      return Err(Internal);
    }
    var all := registry.value;
    var limit := count;
    if limit <= 0 || limit > |all| {
      limit := |all|;
    }
    var result: seq<NodeId> := [];
    for i := 0 to |all|
      invariant result == Without(all[..i], {node})
      invariant |result| < limit || i == 0
    {
      assert all[..i + 1][..i] == all[..i];
      if all[i] == node {
        continue;
      }
      result := result + [all[i]];
      if |result| >= limit {
        WithoutPrefix(all, i + 1, {node});
        TakeOfPrefix(result, Without(all, {node}), limit);
        return Ok(result);
      }
    }
    assert all[..|all|] == all;
    return Ok(result);
  }

  /** Target selection of ReplicateChunk. */
  method ChooseTargets(registry: Option<seq<NodeId>>, transferId: NodeId, replicationFactor: int,
                       excludeNodes: seq<NodeId>)
    returns (targets: seq<NodeId>)
    ensures targets == Targets(registry, transferId, replicationFactor, set n | n in excludeNodes)
  {
    if replicationFactor <= 1 {
      return [];
    }
    var resp := FindPeers(registry, transferId, Int32(replicationFactor * 2));
    if resp.Err? {
      return [];
    }
    var excluded: set<NodeId> := {};
    for i := 0 to |excludeNodes|
      invariant excluded == set n | n in excludeNodes[..i]
    {
      excluded := excluded + {excludeNodes[i]};
    }
    assert excludeNodes[..|excludeNodes|] == excludeNodes;

    var peers := resp.value;
    targets := [];
    assert Without(peers[..0], excluded) == [];
    hide Without, Take, FoundPeers, Int32;
    for i := 0 to |peers|
      invariant targets == Without(peers[..i], excluded)
      invariant |targets| < replicationFactor - 1
    {
      WithoutOneMore(peers, i, excluded);
      if peers[i] in excluded {
        continue;
      }
      targets := targets + [peers[i]];
      if |targets| >= replicationFactor - 1 {
        WithoutPrefix(peers, i + 1, excluded);
        TakeOfPrefix(targets, Without(peers, excluded), replicationFactor - 1);
        return;
      }
    }
    assert peers[..|peers|] == peers;
  }

  lemma WithoutOneMore(peers: seq<NodeId>, i: nat, banned: set<NodeId>)
    requires i < |peers|
    ensures Without(peers[..i + 1], banned)
            == Without(peers[..i], banned) + if peers[i] in banned then [] else [peers[i]]
  {
    assert peers[..i + 1][..i] == peers[..i];
  }

  /** A prefix that is long enough already holds the first n elements. */
  lemma TakeOfPrefix(prefix: seq<NodeId>, peers: seq<NodeId>, n: nat)
    requires prefix <= peers && (n <= |prefix| || prefix == peers)
    ensures Take(prefix, n) == Take(peers, n)
    ensures n == |prefix| ==> Take(peers, n) == prefix
  {
    if n <= |prefix| {
      assert prefix[..n] == peers[..n];
    }
  }

  lemma {:induction false} WithoutPrefix(peers: seq<NodeId>, n: nat, banned: set<NodeId>)
    requires n <= |peers|
    ensures Without(peers[..n], banned) <= Without(peers, banned)
  {
    if n < |peers| {
      WithoutPrefix(peers[..|peers| - 1], n, banned);
      assert peers[..|peers| - 1][..n] == peers[..n];
    } else {
      assert peers[..n] == peers;
    }
  }

  // ----- what is found and chosen

  lemma {:induction false} WithoutCounts(peers: seq<NodeId>, node: NodeId)
    ensures |Without(peers, {node})| == |peers| - multiset(peers)[node]
    ensures node !in Without(peers, {node}) && multiset(Without(peers, {node})) <= multiset(peers)
  {
    if peers != [] {
      WithoutCounts(peers[..|peers| - 1], node);
      assert peers == peers[..|peers| - 1] + [peers[|peers| - 1]];
    }
  }

  lemma TakeIsPart(peers: seq<NodeId>, n: nat)
    ensures |Take(peers, n)| == if |peers| < n then |peers| else n
    ensures multiset(Take(peers, n)) <= multiset(peers) && forall p | p in Take(peers, n) :: p in peers
  {
    if n < |peers| {
      assert peers == peers[..n] + peers[n..];
    }
  }

  /** FindPeers returns as many of the other registered peers as asked for, all for a count that is not
      positive or too large, and never the asking node. */
  lemma FoundPeersCount(all: seq<NodeId>, node: NodeId, count: int)
    ensures var others, limit := |all| - multiset(all)[node], if count <= 0 || count > |all| then |all| else count;
            var found := FoundPeers(all, node, count);
            && |found| == (if others < limit then others else limit)
            && node !in found && multiset(found) <= multiset(all)
  {
    WithoutCounts(all, node);
    TakeIsPart(Without(all, {node}), Limit(count, |all|));
    assert forall p | p in FoundPeers(all, node, count) :: p in Without(all, {node});
    hide Without, Take;
  }

  lemma {:induction false} WithoutKeeps(peers: seq<NodeId>, banned: set<NodeId>)
    ensures forall p :: p in Without(peers, banned) <==> p in peers && p !in banned
  {
    if peers != [] {
      WithoutKeeps(peers[..|peers| - 1], banned);
      assert forall p :: p in peers <==> p in peers[..|peers| - 1] || p == peers[|peers| - 1];
    }
  }

  lemma TargetsAreEligible(registry: Option<seq<NodeId>>, transferId: NodeId, replicationFactor: int, exclude: set<NodeId>)
    ensures var targets := Targets(registry, transferId, replicationFactor, exclude);
            && (replicationFactor <= 1 || registry == None || transferId == "" ==> targets == [])
            && (replicationFactor > 1 ==> |targets| <= replicationFactor - 1)
            && forall t | t in targets :: t !in exclude && t != transferId && registry.Some? && t in registry.value
  {
    if registry.Some? && replicationFactor > 1 && transferId != "" {
      var found := FoundPeers(registry.value, transferId, Int32(replicationFactor * 2));
      WithoutKeeps(registry.value, {transferId});
      WithoutKeeps(found, exclude);
      TakeIsPart(Without(registry.value, {transferId}), Limit(Int32(replicationFactor * 2), |registry.value|));
      TakeIsPart(Without(found, exclude), replicationFactor - 1);
      hide Without, Take, Int32, Limit;
    }
  }

  /** The peers keep the order of the registry: a longer answer begins with the shorter one. */
  lemma MoreFoundBeginTheSame(all: seq<NodeId>, node: NodeId, count: int, more: int)
    requires 0 < count <= more
    ensures FoundPeers(all, node, count) <= FoundPeers(all, node, more) <= FoundPeers(all, node, 0)
  {
    WithoutCounts(all, node);
    hide Without;
  }

  // ----- how many replicas

  ghost predicate Distinct(peers: seq<NodeId>) {
    forall i, j | 0 <= i < j < |peers| :: peers[i] != peers[j]
  }

  lemma {:induction false} WithoutMembers(peers: seq<NodeId>, banned: set<NodeId>)
    requires Distinct(peers)
    ensures Distinct(Without(peers, banned))
    ensures forall p :: p in Without(peers, banned) <==> p in peers && p !in banned
  {
    if peers != [] {
      WithoutMembers(peers[..|peers| - 1], banned);
    }
  }

  lemma {:induction false} DistinctSize(peers: seq<NodeId>)
    requires Distinct(peers)
    ensures |set p | p in peers| == |peers|
  {
    if peers != [] {
      var n := |peers| - 1;
      DistinctSize(peers[..n]);
      assert (set p | p in peers) == (set p | p in peers[..n]) + {peers[n]};
    }
  }

  /** Leaving out one node costs at most one place. */
  lemma {:induction false} WithoutOne(peers: seq<NodeId>, node: NodeId)
    requires Distinct(peers)
    ensures |Without(peers, {node})| >= |peers| - if node in peers then 1 else 0
  {
    if peers != [] {
      WithoutOne(peers[..|peers| - 1], node);
    }
  }

  function Candidates(registry: seq<NodeId>, transferId: NodeId, self: NodeId): set<NodeId> {
    set p | p in registry && p != self && p != transferId
  }

  /** Doubling the replication factor may wrap, but then every peer is asked for. */
  lemma DoublingMayWrap(replicationFactor: int)
    requires 1 < replicationFactor < 0x8000_0000
    ensures var count := Int32(replicationFactor * 2);
            count == 2 * replicationFactor || count <= 0
  {
  }

  /** Exactly as many replicas as asked for, or as the registry allows: distinct, registered, none of
      them on this node, for every 32-bit replication factor. A registered peer whose id equals the
      transfer id is never chosen, because FindPeers skips it. */
  lemma ReplicaCount(registry: seq<NodeId>, transferId: NodeId, replicationFactor: int, self: NodeId)
    requires Distinct(registry) && transferId != ""
    requires 1 < replicationFactor < 0x8000_0000
    ensures IsFullSelection(Targets(Some(registry), transferId, replicationFactor, {self}),
                            Candidates(registry, transferId, self), replicationFactor - 1)
  {
    hide *;
    var others := Without(registry, {transferId});
    TargetsFromOthers(registry, transferId, replicationFactor, self);
    EligiblePeers(registry, transferId, self);
    SelectEligible(Without(others, {self}), Candidates(registry, transferId, self), replicationFactor - 1);
  }

  /** Asking for twice the factor does not restrict the choice. */
  lemma TargetsFromOthers(registry: seq<NodeId>, transferId: NodeId, replicationFactor: int, self: NodeId)
    requires Distinct(registry) && transferId != ""
    requires 1 < replicationFactor < 0x8000_0000
    ensures Targets(Some(registry), transferId, replicationFactor, {self})
            == Take(Without(Without(registry, {transferId}), {self}), replicationFactor - 1)
  {
    var others := Without(registry, {transferId});
    var limit := Limit(Int32(replicationFactor * 2), |registry|);
    var found := Take(others, limit);
    hide Without, Take, Limit, Int32, Distinct;
    WithoutMembers(registry, {transferId});
    WithoutShorter(registry, {transferId});
    EnoughFound(others, |registry|, replicationFactor, self);
    FoundAreEligible(others, limit, self);
    TakeOfPrefix(Without(found, {self}), Without(others, {self}), replicationFactor - 1);
  }

  /** FindPeers returns enough peers to choose from, or all it has. */
  lemma EnoughFound(others: seq<NodeId>, registrySize: nat, replicationFactor: int, self: NodeId)
    requires Distinct(others) && |others| <= registrySize
    requires 1 < replicationFactor < 0x8000_0000
    ensures var found := Take(others, Limit(Int32(replicationFactor * 2), registrySize));
            |Without(found, {self})| >= replicationFactor - 1 || found == others
  {
    var limit := Limit(Int32(replicationFactor * 2), registrySize);
    DoublingMayWrap(replicationFactor);
    if limit < |others| {
      hide Without, Int32;
      WithoutOne(others[..limit], self);
    }
  }

  /** min(n, |candidates|) distinct candidates. */
  ghost predicate IsFullSelection(targets: seq<NodeId>, candidates: set<NodeId>, n: nat) {
    && Distinct(targets)
    && (forall t | t in targets :: t in candidates)
    && |targets| == if |candidates| < n then |candidates| else n
  }

  lemma SelectEligible(eligible: seq<NodeId>, candidates: set<NodeId>, n: nat)
    requires Distinct(eligible) && |eligible| == |candidates|
    requires forall p | p in eligible :: p in candidates
    ensures IsFullSelection(Take(eligible, n), candidates, n)
  {
  }

  /** The peers left when neither the transfer id nor this node is considered. */
  lemma EligiblePeers(registry: seq<NodeId>, transferId: NodeId, self: NodeId)
    requires Distinct(registry)
    ensures var eligible := Without(Without(registry, {transferId}), {self});
            && Distinct(eligible)
            && |eligible| == |Candidates(registry, transferId, self)|
            && forall p :: p in eligible <==> p in Candidates(registry, transferId, self)
  {
    WithoutMembers(registry, {transferId});
    var eligible := Without(Without(registry, {transferId}), {self});
    WithoutMembers(Without(registry, {transferId}), {self});
    DistinctSize(eligible);
    assert (set p | p in eligible) == Candidates(registry, transferId, self);
  }

  lemma FoundAreEligible(others: seq<NodeId>, limit: nat, self: NodeId)
    requires Distinct(others)
    ensures Without(Take(others, limit), {self}) <= Without(others, {self})
  {
    if limit < |others| {
      WithoutPrefix(others, limit, {self});
    }
  }

  lemma {:induction false} WithoutShorter(peers: seq<NodeId>, banned: set<NodeId>)
    ensures |Without(peers, banned)| <= |peers|
  {
    if peers != [] {
      WithoutShorter(peers[..|peers| - 1], banned);
    }
  }
}
