/** services/relay/handler/handler.go: RelayChunk and FetchChunk on a whole mesh of nodes, and the
    replica requests of internal/relay/replicator.go.

    One request is followed through every node it reaches. Whatever can go wrong is decided by a
    Fate, which the lemmas quantify over: saves fail, calls are refused, not delivered, or delivered
    with the reply lost, the routing service answers with any hop list or not at all, the registry
    holds any peers. */
module Relay {
  import opened Common
  import Replication

  datatype ChunkKey = ChunkKey(transferId: NodeId, index: int)

  /** The chunk stores of all nodes. */
  type Stores = map<(NodeId, ChunkKey), Bytes>

  /** A request without data is told apart from one with empty data. */
  datatype Request = Request(
    transferId: NodeId, chunkIndex: int, data: Option<Bytes>, chunkHash: string,
    remainingHops: seq<NodeId>, replicationFactor: int, ttl: int)
  {
    function Key(): ChunkKey {
      ChunkKey(transferId, chunkIndex)
    }
  }

  datatype ErrorCode = InvalidArgument | ResourceExhausted | DataLoss | Internal | NotFound | Unavailable

  datatype Response = Response(success: bool, nodeId: NodeId)

  type Reply = Result<Response, ErrorCode>

  /** The digest is a parameter: nothing depends on which function it is. */
  type Hash = Bytes -> string

  /** How one remote call goes. NotDelivered covers an open breaker, an unknown or unreachable node
      and a lost request. */
  datatype Rpc = NotDelivered | Delivered(remote: Fate, replyLost: bool)

  /** How one activation of the handler goes. */
  datatype Fate = Fate(
    saveOk: bool,
    forward: Rpc,
    reroute: Option<seq<NodeId>>,         // hops of FindAlternativeRoute; None: error or no rerouter
    retry: Rpc,
    registry: Option<seq<NodeId>>,        // peers for replication; None: error or no replicator
    replicas: seq<Rpc>)                   // one per target; targets beyond its end are not reached

  datatype Reroute = Reroute(source: NodeId, target: NodeId, failed: NodeId, hops: seq<NodeId>)

  /** Outcome of a request: the stores afterwards, the reply, the activations of the handler other
      than those by replica requests, all SaveChunk calls, and the alternative routes used. */
  datatype Run = Run(stores: Stores, reply: Reply, activations: nat, saves: nat, reroutes: seq<Reroute>)

  predicate IsFinalDestination(self: NodeId, hops: seq<NodeId>) {
    hops == [] || (|hops| == 1 && hops[0] == self)
  }

  predicate HashMatches(hash: Hash, req: Request) {
    req.data.Some? && (req.chunkHash == "" || hash(req.data.value) == req.chunkHash)
  }

  /** The checks before the chunk is looked at, in their order. */
  function Rejection(hash: Hash, req: Request): Option<ErrorCode> {
    if req.transferId == "" || req.data == None then Some(InvalidArgument)
    else if req.ttl <= 0 then Some(ResourceExhausted)
    else if !HashMatches(hash, req) then Some(DataLoss)
    else None
  }

  /** Replicas are stored where they arrive and are not replicated again. */
  function ReplicaRequest(req: Request): Request {
    req.(remainingHops := [], replicationFactor := 1, ttl := 1)
  }

  function Level(req: Request): nat {
    if req.ttl > 0 then req.ttl else 0
  }

  function Cascade(req: Request): nat {
    if req.replicationFactor > 1 then 1 else 0
  }

  /** The request for the next node: one hop further and with one less TTL. */
  function Next(req: Request, hops: seq<NodeId>): Request {
    req.(remainingHops := hops, ttl := req.ttl - 1)
  }

  /** A request terminates because forwarding lowers the TTL and replicas do not cascade. */
  function RelayChunk(hash: Hash, self: NodeId, req: Request, stores: Stores, fate: Fate): Run
    decreases Level(req), Cascade(req), 1, 0
  {
    if Rejection(hash, req).Some? then
      Run(stores, Err(Rejection(hash, req).value), 1, 0, [])
    else if IsFinalDestination(self, req.remainingHops) then
      AtDestination(hash, self, req, stores, fate)
    else
      Settle(self, req, Tries(hash, self, req, stores, fate), fate.saveOk)
  }

  /** The chunk is stored, and then replicated if asked for. */
  function AtDestination(hash: Hash, self: NodeId, req: Request, stores: Stores, fate: Fate): Run
    requires Rejection(hash, req) == None
    decreases Level(req), Cascade(req), 0, 0
  {
    if !fate.saveOk then
      Run(stores, Err(Internal), 1, 1, [])
    else
      var stored := stores[(self, req.Key()) := req.data.value];
      if req.replicationFactor > 1 then
        var targets := Replication.Targets(fate.registry, req.transferId, req.replicationFactor, {self});
        var copies := Replicate(hash, targets, ReplicaRequest(req), stored, fate.replicas);
        Run(copies.stores, Ok(Response(true, self)), 1, 1 + copies.saves, [])
      else
        Run(stored, Ok(Response(true, self)), 1, 1, [])
  }

  /** The next hop is tried, then once an alternative route. */
  function Tries(hash: Hash, self: NodeId, req: Request, stores: Stores, fate: Fate): Run
    requires req.ttl > 0 && req.remainingHops != []
    decreases Level(req), Cascade(req), 0, 0
  {
    var hops := req.remainingHops;
    var first := Forward(hash, hops[0], Next(req, hops[1..]), stores, fate.forward);
    if first.reply.Err? && fate.reroute.Some? && fate.reroute.value != [] then
      var newHops := fate.reroute.value;
      var second := Forward(hash, newHops[0], Next(req, newHops[1..]), first.stores, fate.retry);
      Both(first, Reroute(self, hops[|hops| - 1], hops[0], newHops), second)
    else
      first
  }

  /** A failed first try followed by a second one. */
  function Both(first: Run, reroute: Reroute, second: Run): Run {
    Run(second.stores, second.reply, first.activations + second.activations, first.saves + second.saves,
        first.reroutes + [reroute] + second.reroutes)
  }

  /** A successful reply is passed on; otherwise the chunk is saved here, so that it is not lost. */
  function Settle(self: NodeId, req: Request, tries: Run, saveOk: bool): Run
    requires req.data.Some?
  {
    var run := tries.(activations := tries.activations + 1);
    if run.reply.Ok? then
      run
    else if saveOk then
      run.(stores := run.stores[(self, req.Key()) := req.data.value], reply := Ok(Response(false, self)),
           saves := run.saves + 1)
    else
      run.(reply := Err(Internal), saves := run.saves + 1)
  }

  /** ForwardChunk: the call to the handler of `target`, as its caller sees it. */
  function Forward(hash: Hash, target: NodeId, req: Request, stores: Stores, rpc: Rpc): Run
    decreases Level(req), Cascade(req), 2, 0
  {
    match rpc
    case NotDelivered => Run(stores, Err(Unavailable), 0, 0, [])
    case Delivered(remote, replyLost) =>
      var run := RelayChunk(hash, target, req, stores, remote);
      if replyLost then run.(reply := Err(Unavailable)) else run
  }

  /** The replica requests, one after the other. */
  function Replicate(hash: Hash, targets: seq<NodeId>, req: Request, stores: Stores, rpcs: seq<Rpc>): Run
    decreases Level(req), Cascade(req), 3, |targets|
  {
    if targets == [] || rpcs == [] then
      Run(stores, Err(Unavailable), 0, 0, [])
    else
      var first := Forward(hash, targets[0], req, stores, rpcs[0]);
      var rest := Replicate(hash, targets[1..], req, first.stores, rpcs[1..]);
      rest.(saves := first.saves + rest.saves)
  }

  function FetchChunk(hash: Hash, stores: Stores, self: NodeId, key: ChunkKey): Result<(Bytes, string), ErrorCode> {
    if key.transferId == "" then Err(InvalidArgument)
    else if (self, key) !in stores then Err(NotFound)
    else Ok((stores[(self, key)], hash(stores[(self, key)])))
  }

  // ----- the handler as the source writes it

  /** The ghost fields count what a Run counts: `replica` marks the calls that a replica request makes. */
  class Mesh {
    var stores: Stores
    ghost var activations: nat
    ghost var saves: nat
    ghost var reroutes: seq<Reroute>

    constructor ()
      ensures stores == map[] && activations == 0 && saves == 0 && reroutes == []
    {
      stores := map[];
      activations, saves, reroutes := 0, 0, [];
    }

    /** The mesh has gone from the given state to this one as `run` says. */
    ghost predicate Ran(run: Run, replica: bool, activations0: nat, saves0: nat, reroutes0: seq<Reroute>)
      reads this
    {
      && stores == run.stores
      && saves == saves0 + run.saves
      && activations == (if replica then activations0 else activations0 + run.activations)
      && reroutes == (if replica then reroutes0 else reroutes0 + run.reroutes)
    }

    method SaveChunk(self: NodeId, key: ChunkKey, data: Bytes, ok: bool) returns (saved: bool)
      modifies `stores, `saves
      ensures saved == ok && saves == old(saves) + 1
      ensures stores == if ok then old(stores)[(self, key) := data] else old(stores)
    {
      saves := saves + 1;
      if ok {
        stores := stores[(self, key) := data];
      }
      return ok;
    }

    method Relay(hash: Hash, self: NodeId, req: Request, fate: Fate, ghost replica: bool) returns (reply: Reply)
      modifies this
      ensures Ran(RelayChunk(hash, self, req, old(stores), fate), replica, old(activations), old(saves), old(reroutes))
      ensures reply == RelayChunk(hash, self, req, old(stores), fate).reply
      decreases Level(req), Cascade(req), 1, 0
    {
      if !replica {
        activations := activations + 1;
      }
      if req.transferId == "" || req.data == None {
        return Err(InvalidArgument);
      }
      if req.ttl <= 0 {
        return Err(ResourceExhausted);
      }
      if req.chunkHash != "" {
        if hash(req.data.value) != req.chunkHash {
          return Err(DataLoss);
        }
      }
      if |req.remainingHops| == 0 || IsFinalDestination(self, req.remainingHops) {
        reply := StoreHere(hash, self, req, fate);
      } else {
        reply := PassOn(hash, self, req, fate, replica);
        if reply.Err? {
          var saved := SaveChunk(self, req.Key(), req.data.value, fate.saveOk);
          if !saved {
            return Err(Internal);
          }
          return Ok(Response(false, self));
        }
      }
    }

    /** The part of the handler for a chunk that has arrived. */
    method StoreHere(hash: Hash, self: NodeId, req: Request, fate: Fate) returns (reply: Reply)
      requires Rejection(hash, req) == None
      modifies this
      ensures Ran(AtDestination(hash, self, req, old(stores), fate), true, old(activations), old(saves), old(reroutes))
      ensures reply == AtDestination(hash, self, req, old(stores), fate).reply
      decreases Level(req), Cascade(req), 0, 0
    {
      var saved := SaveChunk(self, req.Key(), req.data.value, fate.saveOk);
      if !saved {
        return Err(Internal);
      }
      if req.replicationFactor > 1 {
        var targets := Replication.ChooseTargets(fate.registry, req.transferId, req.replicationFactor, [self]);
        assert (set n | n in [self]) == {self};
        ReplicateTo(hash, targets, ReplicaRequest(req), fate.replicas);
      }
      return Ok(Response(true, self));
    }

    /** The part of the handler for a chunk that goes further. */
    method PassOn(hash: Hash, self: NodeId, req: Request, fate: Fate, ghost replica: bool) returns (reply: Reply)
      requires req.ttl > 0 && req.remainingHops != []
      modifies this
      ensures Ran(Tries(hash, self, req, old(stores), fate), replica, old(activations), old(saves), old(reroutes))
      ensures reply == Tries(hash, self, req, old(stores), fate).reply
      decreases Level(req), Cascade(req), 0, 0
    {
      var nextHop := req.remainingHops[0];
      var forwardReq := req.(remainingHops := req.remainingHops[1..], ttl := req.ttl - 1);
      var resp := ForwardTo(hash, nextHop, forwardReq, fate.forward, replica);
      if resp.Err? {
        if fate.reroute.Some? {
          var newHops := fate.reroute.value;
          if |newHops| > 0 {
            if !replica {
              reroutes := reroutes + [Reroute(self, req.remainingHops[|req.remainingHops| - 1], nextHop, newHops)];
            }
            forwardReq := forwardReq.(remainingHops := newHops[1..]);
            resp := ForwardTo(hash, newHops[0], forwardReq, fate.retry, replica);
          }
        }
      }
      return resp;
    }

    method ForwardTo(hash: Hash, target: NodeId, req: Request, rpc: Rpc, ghost replica: bool) returns (reply: Reply)
      modifies this
      ensures Ran(Forward(hash, target, req, old(stores), rpc), replica, old(activations), old(saves), old(reroutes))
      ensures reply == Forward(hash, target, req, old(stores), rpc).reply
      decreases Level(req), Cascade(req), 2, 0
    {
      match rpc
      case NotDelivered =>
        return Err(Unavailable);
      case Delivered(remote, replyLost) =>
        reply := Relay(hash, target, req, remote, replica);
        if replyLost {
          reply := Err(Unavailable);
        }
    }

    method ReplicateTo(hash: Hash, targets: seq<NodeId>, req: Request, rpcs: seq<Rpc>)
      modifies this
      ensures Ran(Replicate(hash, targets, req, old(stores), rpcs), true, old(activations), old(saves), old(reroutes))
      decreases Level(req), Cascade(req), 3, |targets|
    {
      if targets != [] && rpcs != [] {
        var _ := ForwardTo(hash, targets[0], req, rpcs[0], true);
        ReplicateTo(hash, targets[1..], req, rpcs[1..]);
      }
    }
  }

  // ----- no accepted chunk is lost

  /** The only thing a request may do to the stores is to put its data under its key. */
  ghost predicate OnlyAdds(before: Stores, after: Stores, req: Request) {
    && before.Keys <= after.Keys
    && forall p | p in after ::
         (p in before && after[p] == before[p]) || (p.1 == ChunkKey(req.transferId, req.chunkIndex) && Some(after[p]) == req.data)
  }

  ghost predicate Holds(stores: Stores, node: NodeId, req: Request) {
    var place := (node, ChunkKey(req.transferId, req.chunkIndex));
    place in stores && Some(stores[place]) == req.data
  }

  lemma {:induction false} RelayOnlyAdds(hash: Hash, self: NodeId, req: Request, stores: Stores, fate: Fate)
    ensures OnlyAdds(stores, RelayChunk(hash, self, req, stores, fate).stores, req)
    decreases Level(req), Cascade(req), 1, 0
  {
    if Rejection(hash, req) == None {
      if IsFinalDestination(self, req.remainingHops) {
        if fate.saveOk && req.replicationFactor > 1 {
          var targets := Replication.Targets(fate.registry, req.transferId, req.replicationFactor, {self});
          ReplicateOnlyAdds(hash, targets, ReplicaRequest(req), stores[(self, req.Key()) := req.data.value], fate.replicas);
        }
      } else {
        TriesOnlyAdd(hash, self, req, stores, fate);
        hide Tries;
      }
    }
  }

  lemma {:induction false} TriesOnlyAdd(hash: Hash, self: NodeId, req: Request, stores: Stores, fate: Fate)
    requires req.ttl > 0 && req.remainingHops != []
    ensures OnlyAdds(stores, Tries(hash, self, req, stores, fate).stores, req)
    decreases Level(req), Cascade(req), 0, 0
  {
    var hops := req.remainingHops;
    ForwardOnlyAdds(hash, hops[0], Next(req, hops[1..]), stores, fate.forward);
    var first := Forward(hash, hops[0], Next(req, hops[1..]), stores, fate.forward);
    if first.reply.Err? && fate.reroute.Some? && fate.reroute.value != [] {
      var newHops := fate.reroute.value;
      ForwardOnlyAdds(hash, newHops[0], Next(req, newHops[1..]), first.stores, fate.retry);
    }
    hide Forward;
  }

  lemma {:induction false} ForwardOnlyAdds(hash: Hash, target: NodeId, req: Request, stores: Stores, rpc: Rpc)
    ensures OnlyAdds(stores, Forward(hash, target, req, stores, rpc).stores, req)
    decreases Level(req), Cascade(req), 2, 0
  {
    if rpc.Delivered? {
      RelayOnlyAdds(hash, target, req, stores, rpc.remote);
    }
  }

  lemma {:induction false} ReplicateOnlyAdds(hash: Hash, targets: seq<NodeId>, req: Request, stores: Stores, rpcs: seq<Rpc>)
    ensures OnlyAdds(stores, Replicate(hash, targets, req, stores, rpcs).stores, req)
    decreases Level(req), Cascade(req), 3, |targets|
  {
    if targets != [] && rpcs != [] {
      ForwardOnlyAdds(hash, targets[0], req, stores, rpcs[0]);
      var first := Forward(hash, targets[0], req, stores, rpcs[0]);
      ReplicateOnlyAdds(hash, targets[1..], req, first.stores, rpcs[1..]);
    }
  }

  /** A reply without error names a node that holds exactly the bytes of the request. */
  ghost predicate ReplyIsStored(run: Run, req: Request) {
    run.reply.Ok? ==> Holds(run.stores, run.reply.value.nodeId, req)
  }

  /** Whatever fails: a request that passes the checks ends in an error only if the node's own save
      failed, and every other reply names a node that holds exactly the bytes of the request. */
  lemma {:induction false} NoAcceptedChunkIsLost(hash: Hash, self: NodeId, req: Request, stores: Stores, fate: Fate)
    ensures var run := RelayChunk(hash, self, req, stores, fate);
            && (Rejection(hash, req).Some? ==> run.reply == Err(Rejection(hash, req).value) && run.stores == stores)
            && (Rejection(hash, req) == None && run.reply.Err? ==> run.reply == Err(Internal) && !fate.saveOk)
            && ReplyIsStored(run, req)
    decreases Level(req), 0
  {
    if Rejection(hash, req) == None {
      if IsFinalDestination(self, req.remainingHops) {
        DestinationHolds(hash, self, req, stores, fate);
      } else {
        var hops := req.remainingHops;
        ForwardedIsStored(hash, hops[0], Next(req, hops[1..]), stores, fate.forward);
        var first := Forward(hash, hops[0], Next(req, hops[1..]), stores, fate.forward);
        if first.reply.Err? && fate.reroute.Some? && fate.reroute.value != [] {
          var newHops := fate.reroute.value;
          ForwardedIsStored(hash, newHops[0], Next(req, newHops[1..]), first.stores, fate.retry);
        }
      }
    }
  }

  lemma DestinationHolds(hash: Hash, self: NodeId, req: Request, stores: Stores, fate: Fate)
    requires Rejection(hash, req) == None && IsFinalDestination(self, req.remainingHops)
    ensures var run := RelayChunk(hash, self, req, stores, fate);
            if fate.saveOk then run.reply == Ok(Response(true, self)) && Holds(run.stores, self, req)
            else run.reply == Err(Internal)
  {
    if fate.saveOk && req.replicationFactor > 1 {
      var targets := Replication.Targets(fate.registry, req.transferId, req.replicationFactor, {self});
      ReplicateOnlyAdds(hash, targets, ReplicaRequest(req), stores[(self, req.Key()) := req.data.value], fate.replicas);
    }
  }

  lemma {:induction false} ForwardedIsStored(hash: Hash, target: NodeId, req: Request, stores: Stores, rpc: Rpc)
    ensures ReplyIsStored(Forward(hash, target, req, stores, rpc), req)
    decreases Level(req), 1
  {
    if rpc.Delivered? {
      NoAcceptedChunkIsLost(hash, target, req, stores, rpc.remote);
    }
  }

  /** Round trip: fetching from the node that a reply names returns the bytes of the request. */
  lemma FetchAfterRelay(hash: Hash, self: NodeId, req: Request, stores: Stores, fate: Fate)
    requires RelayChunk(hash, self, req, stores, fate).reply.Ok?
    ensures var run := RelayChunk(hash, self, req, stores, fate);
            req.data.Some?
            && FetchChunk(hash, run.stores, run.reply.value.nodeId, ChunkKey(req.transferId, req.chunkIndex))
               == Ok((req.data.value, hash(req.data.value)))
  {
    NoAcceptedChunkIsLost(hash, self, req, stores, fate);
  }

  /** Other chunks are not touched: whoever could fetch one gets the same answer afterwards. */
  lemma FetchOfOtherChunks(hash: Hash, self: NodeId, req: Request, stores: Stores, fate: Fate, node: NodeId, key: ChunkKey)
    requires key != ChunkKey(req.transferId, req.chunkIndex)
    ensures var after := RelayChunk(hash, self, req, stores, fate).stores;
            && FetchChunk(hash, after, node, key) == FetchChunk(hash, stores, node, key)
            && (FetchChunk(hash, after, node, key) == Err(InvalidArgument) <==> key.transferId == "")
            && (FetchChunk(hash, after, node, key) == Err(NotFound) <==> key.transferId != "" && (node, key) !in stores)
  {
    RelayOnlyAdds(hash, self, req, stores, fate);
  }

  // ----- what is refused, and where a chunk stays

  /** Each error of the handler in exactly its case: a missing id or missing data, an expired TTL, a hash
      that is given and wrong; every other error is a failed save. A refused request changes nothing. */
  lemma {:induction false} RefusedIff(hash: Hash, self: NodeId, req: Request, stores: Stores, fate: Fate)
    ensures var run := RelayChunk(hash, self, req, stores, fate);
            var incomplete := req.transferId == "" || req.data == None;
            var expired := !incomplete && req.ttl <= 0;
            var corrupt := !incomplete && !expired && req.chunkHash != "" && hash(req.data.value) != req.chunkHash;
            && (run.reply == Err(InvalidArgument) <==> incomplete)
            && (run.reply == Err(ResourceExhausted) <==> expired)
            && (run.reply == Err(DataLoss) <==> corrupt)
            && (incomplete || expired || corrupt ==> run.stores == stores && run.saves == 0 && run.activations == 1)
            && (run.reply.Err? && !incomplete && !expired && !corrupt ==> run.reply == Err(Internal) && !fate.saveOk)
  {
    NoAcceptedChunkIsLost(hash, self, req, stores, fate);
  }

  /** Whenever a hash is given, the bytes at the node that a reply names have that hash. */
  lemma ReplyMatchesHash(hash: Hash, self: NodeId, req: Request, stores: Stores, fate: Fate)
    requires RelayChunk(hash, self, req, stores, fate).reply.Ok? && req.chunkHash != ""
    ensures var run := RelayChunk(hash, self, req, stores, fate);
            var place := (run.reply.value.nodeId, ChunkKey(req.transferId, req.chunkIndex));
            place in run.stores && hash(run.stores[place]) == req.chunkHash
  {
    NoAcceptedChunkIsLost(hash, self, req, stores, fate);
  }

  /** A chunk with no hops left, or with the node itself as the only one, is stored here: the reply is
      decided by the save alone. */
  lemma ArrivesHere(hash: Hash, self: NodeId, req: Request, stores: Stores, fate: Fate)
    requires req.transferId != "" && req.data.Some? && req.ttl > 0
    requires req.chunkHash == "" || hash(req.data.value) == req.chunkHash
    requires req.remainingHops == [] || req.remainingHops == [self]
    ensures var run := RelayChunk(hash, self, req, stores, fate);
            && run.reply == (if fate.saveOk then Ok(Response(true, self)) else Err(Internal))
            && (fate.saveOk ==> Holds(run.stores, self, req))
            && (!fate.saveOk ==> run.stores == stores)
            && run.activations == 1 && run.reroutes == []
  {
    DestinationHolds(hash, self, req, stores, fate);
  }

  /** Any other chunk is kept here exactly when no node answers, and that is never called a success. */
  lemma KeptIfNobodyAnswers(hash: Hash, self: NodeId, req: Request, stores: Stores, fate: Fate)
    requires req.transferId != "" && req.data.Some? && req.ttl > 0
    requires req.chunkHash == "" || hash(req.data.value) == req.chunkHash
    requires req.remainingHops != [] && req.remainingHops != [self]
    requires fate.forward.Delivered? ==> fate.forward.replyLost
    requires fate.reroute.Some? && fate.retry.Delivered? ==> fate.retry.replyLost
    ensures var run := RelayChunk(hash, self, req, stores, fate);
            && run.reply == (if fate.saveOk then Ok(Response(false, self)) else Err(Internal))
            && (fate.saveOk ==> Holds(run.stores, self, req))
  {
    assert Tries(hash, self, req, stores, fate).reply.Err?;
  }

  // ----- replicas

  ghost predicate AllSave(rpcs: seq<Rpc>) {
    forall r | r in rpcs :: r.Delivered? && r.remote.saveOk
  }

  lemma {:induction false} ReplicasHold(hash: Hash, targets: seq<NodeId>, req: Request, stores: Stores, rpcs: seq<Rpc>)
    requires req.remainingHops == [] && req.replicationFactor <= 1 && Rejection(hash, req) == None
    requires |targets| <= |rpcs| && AllSave(rpcs)
    ensures forall t | t in targets :: Holds(Replicate(hash, targets, req, stores, rpcs).stores, t, req)
    decreases |targets|
  {
    if targets != [] {
      var first := Forward(hash, targets[0], req, stores, rpcs[0]);
      assert rpcs[0] in rpcs && forall r | r in rpcs[1..] :: r in rpcs;
      DestinationHolds(hash, targets[0], req, stores, rpcs[0].remote);
      ReplicasHold(hash, targets[1..], req, first.stores, rpcs[1..]);
      ReplicateOnlyAdds(hash, targets[1..], req, first.stores, rpcs[1..]);
    }
  }

  /** If every replica request arrives and is saved, even with all replies lost, the chunk ends up on as
      many nodes as the replication factor asks for, or as there are. */
  lemma ReplicationReachesFactor(hash: Hash, self: NodeId, req: Request, stores: Stores, fate: Fate)
    returns (holders: set<NodeId>)
    requires Rejection(hash, req) == None && IsFinalDestination(self, req.remainingHops) && fate.saveOk
    requires 1 < req.replicationFactor < 0x8000_0000
    requires fate.registry.Some? && Replication.Distinct(fate.registry.value)
    requires |Replication.Targets(fate.registry, req.transferId, req.replicationFactor, {self})| <= |fate.replicas|
    requires AllSave(fate.replicas)
    ensures var available := |Replication.Candidates(fate.registry.value, req.transferId, self)|;
            |holders| == 1 + if available < req.replicationFactor - 1 then available else req.replicationFactor - 1
    ensures forall n | n in holders :: Holds(RelayChunk(hash, self, req, stores, fate).stores, n, req)
  {
    var targets := Replication.Targets(fate.registry, req.transferId, req.replicationFactor, {self});
    var stored := stores[(self, req.Key()) := req.data.value];
    Replication.ReplicaCount(fate.registry.value, req.transferId, req.replicationFactor, self);
    Replication.DistinctSize(targets);
    ReplicasHold(hash, targets, ReplicaRequest(req), stored, fate.replicas);
    ReplicateOnlyAdds(hash, targets, ReplicaRequest(req), stored, fate.replicas);
    holders := {self} + set t | t in targets;
    assert RelayChunk(hash, self, req, stores, fate).stores
           == Replicate(hash, targets, ReplicaRequest(req), stored, fate.replicas).stores;
    assert Holds(stored, self, req);
  }

  // ----- destination

  function Destination(self: NodeId, hops: seq<NodeId>): NodeId {
    if hops == [] then self else hops[|hops| - 1]
  }

  ghost predicate EndAtTheirTargets(reroutes: seq<Reroute>) {
    forall r | r in reroutes :: r.hops != [] && r.hops[|r.hops| - 1] == r.target
  }

  ghost predicate SucceedsOnlyAt(run: Run, node: NodeId) {
    EndAtTheirTargets(run.reroutes) && run.reply.Ok? && run.reply.value.success ==> run.reply.value.nodeId == node
  }

  /** If every alternative route that was used ends where it was asked to, success means that the last
      hop of the original list has the chunk. */
  lemma {:induction false} SuccessIsAtDestination(hash: Hash, self: NodeId, req: Request, stores: Stores, fate: Fate)
    ensures SucceedsOnlyAt(RelayChunk(hash, self, req, stores, fate), Destination(self, req.remainingHops))
    decreases Level(req), 0
  {
    if Rejection(hash, req) == None && !IsFinalDestination(self, req.remainingHops) {
      var hops := req.remainingHops;
      ForwardedSucceedsAt(hash, hops[0], Next(req, hops[1..]), stores, fate.forward);
      var first := Forward(hash, hops[0], Next(req, hops[1..]), stores, fate.forward);
      if first.reply.Err? && fate.reroute.Some? && fate.reroute.value != [] {
        var newHops := fate.reroute.value;
        ForwardedSucceedsAt(hash, newHops[0], Next(req, newHops[1..]), first.stores, fate.retry);
        var second := Forward(hash, newHops[0], Next(req, newHops[1..]), first.stores, fate.retry);
        RerouteReachesTarget(first, Reroute(self, Destination(self, hops), hops[0], newHops), second);
      }
    }
  }

  lemma {:induction false} ForwardedSucceedsAt(hash: Hash, target: NodeId, req: Request, stores: Stores, rpc: Rpc)
    ensures SucceedsOnlyAt(Forward(hash, target, req, stores, rpc), Destination(target, req.remainingHops))
    decreases Level(req), 1
  {
    if rpc.Delivered? {
      SuccessIsAtDestination(hash, target, req, stores, rpc.remote);
    }
  }

  lemma RerouteReachesTarget(first: Run, reroute: Reroute, second: Run)
    requires reroute.hops != [] && SucceedsOnlyAt(second, Destination(reroute.hops[0], reroute.hops[1..]))
    ensures SucceedsOnlyAt(Both(first, reroute, second), reroute.target)
  {
    var both := Both(first, reroute, second);
    assert reroute in both.reroutes;
    assert forall r | r in second.reroutes :: r in both.reroutes;
  }
}
