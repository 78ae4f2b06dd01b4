/** How the routes of the routing service decide where a relayed chunk ends up. */
module RelayRouting {
  import opened Common
  import opened Relay
  import Routing

  /** The routing service as one reroute met it: its database and the nodes it left out. */
  datatype Answer = Answer(db: Routing.Database, excluded: set<NodeId>)

  /** The hops of `r` are what FindAlternativeRoute computed from that answer. */
  ghost predicate Computed(answer: Answer, r: Reroute) {
    && r.hops != [] && r.failed in answer.excluded
    && Routing.IsLongestChain(answer.db, r.source, r.target, answer.excluded, Routing.REROUTE_MAX_HOPS, r.hops)
  }

  ghost predicate Connected(answer: Answer, r: Reroute) {
    Routing.ReachesWithin(answer.db, r.source, r.target, answer.excluded, Routing.REROUTE_MAX_HOPS)
  }

  /** The table may change between the reroutes of one request. If, whenever one was used, the table led
      from the rerouting node to the target in at most ten allowed hops, a reported success is at the
      destination. */
  lemma ConnectedReroutesDeliver(hash: Hash, self: NodeId, req: Request, stores: Stores, fate: Fate,
                                 answers: seq<Answer>)
    requires var reroutes := RelayChunk(hash, self, req, stores, fate).reroutes;
             && |answers| == |reroutes|
             && forall i | 0 <= i < |reroutes| ::
                  Computed(answers[i], reroutes[i]) && Connected(answers[i], reroutes[i])
    ensures var reply := RelayChunk(hash, self, req, stores, fate).reply;
            reply.Ok? && reply.value.success ==> reply.value.nodeId == Destination(self, req.remainingHops)
  {
    var reroutes := RelayChunk(hash, self, req, stores, fate).reroutes;
    forall i | 0 <= i < |reroutes| ensures reroutes[i].hops[|reroutes[i].hops| - 1] == reroutes[i].target {
      Routing.WalkFindsShortRoutes(answers[i].db, reroutes[i].source, reroutes[i].target, answers[i].excluded,
                                   Routing.REROUTE_MAX_HOPS, reroutes[i].hops);
    }
    SuccessIsAtDestination(hash, self, req, stores, fate);
  }

  // ----- where a request can succeed

  /** What the rerouter may answer to (source, target, failed). */
  type Answers = (NodeId, NodeId, NodeId) -> set<seq<NodeId>>

  /** Every alternative route in this fate is one of the answers; everything else may go in any way. */
  predicate Follows(answers: Answers, self: NodeId, hops: seq<NodeId>, fate: Fate)
    decreases fate
  {
    IsFinalDestination(self, hops) ||
    (&& (fate.forward.Delivered? ==> Follows(answers, hops[0], hops[1..], fate.forward.remote))
     && (fate.reroute.Some? && fate.reroute.value != [] ==>
           && fate.reroute.value in answers(self, Destination(self, hops), hops[0])
           && (fate.retry.Delivered? ==>
                 Follows(answers, fate.reroute.value[0], fate.reroute.value[1..], fate.retry.remote))))
  }

  /** The nodes that can report success, computed from the answers before anything is sent. */
  function Ends(answers: Answers, self: NodeId, hops: seq<NodeId>, ttl: int): set<NodeId>
    decreases ttl, 1
  {
    if ttl <= 0 then {}
    else if IsFinalDestination(self, hops) then {self}
    else
      RouteEnds(answers, hops, ttl)
      + set route, end | route in answers(self, Destination(self, hops), hops[0])
                         && end in RouteEnds(answers, route, ttl) :: end
  }

  /** Those reached by trying this hop list. */
  function RouteEnds(answers: Answers, route: seq<NodeId>, ttl: int): set<NodeId>
    requires ttl > 0
    decreases ttl, 0
  {
    if route == [] then {} else Ends(answers, route[0], route[1..], ttl - 1)
  }

  ghost predicate SucceedsIn(run: Run, ends: set<NodeId>) {
    run.reply.Ok? && run.reply.value.success ==> run.reply.value.nodeId in ends
  }

  lemma {:induction false} SuccessIsAtEnd(hash: Hash, self: NodeId, req: Request, stores: Stores, fate: Fate,
                                          answers: Answers)
    requires Follows(answers, self, req.remainingHops, fate)
    ensures SucceedsIn(RelayChunk(hash, self, req, stores, fate), Ends(answers, self, req.remainingHops, req.ttl))
    decreases Level(req), 1
  {
    if Rejection(hash, req) == None && !IsFinalDestination(self, req.remainingHops) {
      TriesEnd(hash, self, req, stores, fate, answers);
      hide Tries, Ends;
    }
  }

  lemma {:induction false} TriesEnd(hash: Hash, self: NodeId, req: Request, stores: Stores, fate: Fate, answers: Answers)
    requires req.ttl > 0 && !IsFinalDestination(self, req.remainingHops)
    requires Follows(answers, self, req.remainingHops, fate)
    ensures SucceedsIn(Tries(hash, self, req, stores, fate), Ends(answers, self, req.remainingHops, req.ttl))
    decreases Level(req), 0
  {
    var hops := req.remainingHops;
    RouteSucceedsAtEnd(hash, req, hops, stores, fate.forward, answers);
    var first := Forward(hash, hops[0], Next(req, hops[1..]), stores, fate.forward);
    if first.reply.Err? && fate.reroute.Some? && fate.reroute.value != [] {
      var newHops := fate.reroute.value;
      RouteSucceedsAtEnd(hash, req, newHops, first.stores, fate.retry, answers);
      assert RouteEnds(answers, newHops, req.ttl) <= Ends(answers, self, hops, req.ttl);
    }
    hide Forward, RouteEnds, Follows;
  }

  lemma {:induction false} RouteSucceedsAtEnd(hash: Hash, req: Request, route: seq<NodeId>, stores: Stores, rpc: Rpc,
                                              answers: Answers)
    requires req.ttl > 0 && route != []
    requires rpc.Delivered? ==> Follows(answers, route[0], route[1..], rpc.remote)
    ensures SucceedsIn(Forward(hash, route[0], Next(req, route[1..]), stores, rpc), RouteEnds(answers, route, req.ttl))
    decreases req.ttl - 1, 2
  {
    if rpc.Delivered? {
      SuccessIsAtEnd(hash, route[0], Next(req, route[1..]), stores, rpc.remote, answers);
      hide RelayChunk, Ends;
    }
  }

  /** Every such node does report success in some run. */
  lemma {:induction false} EndIsReached(hash: Hash, self: NodeId, req: Request, stores: Stores, answers: Answers,
                                        end: NodeId) returns (fate: Fate)
    requires Rejection(hash, req) == None
    requires end in Ends(answers, self, req.remainingHops, req.ttl)
    ensures Follows(answers, self, req.remainingHops, fate)
    ensures RelayChunk(hash, self, req, stores, fate).reply == Ok(Response(true, end))
    decreases req.ttl, 1
  {
    var hops := req.remainingHops;
    if IsFinalDestination(self, hops) {
      fate := Fate(true, NotDelivered, None, NotDelivered, None, []);
    } else if end in RouteEnds(answers, hops, req.ttl) {
      var remote := EndIsReachedAlong(hash, req, hops, stores, answers, end);
      hide Ends, RelayChunk, Rejection;
      fate := Fate(true, Delivered(remote, false), None, NotDelivered, None, []);
      PassedOn(hash, self, req, stores, fate, RelayChunk(hash, hops[0], Next(req, hops[1..]), stores, remote));
    } else {
      var route :| route in answers(self, Destination(self, hops), hops[0]) && end in RouteEnds(answers, route, req.ttl);
      var remote := EndIsReachedAlong(hash, req, route, stores, answers, end);
      hide Ends, RelayChunk, Rejection;
      fate := Fate(true, NotDelivered, Some(route), Delivered(remote, false), None, []);
      Rerouted(hash, self, req, stores, fate, RelayChunk(hash, route[0], Next(req, route[1..]), stores, remote));
    }
  }

  lemma {:induction false} EndIsReachedAlong(hash: Hash, req: Request, route: seq<NodeId>, stores: Stores,
                                             answers: Answers, end: NodeId) returns (remote: Fate)
    requires Rejection(hash, req) == None && end in RouteEnds(answers, route, req.ttl)
    ensures route != [] && Follows(answers, route[0], route[1..], remote)
    ensures RelayChunk(hash, route[0], Next(req, route[1..]), stores, remote).reply == Ok(Response(true, end))
    decreases req.ttl, 0
  {
    assert req.ttl > 1;
    remote := EndIsReached(hash, route[0], Next(req, route[1..]), stores, answers, end);
  }

  /** The exact condition for delivery: whatever else fails, a request reports success at its destination
      only, if and only if the hops and the answers of the rerouter lead nowhere else. */
  lemma DeliversIff(hash: Hash, self: NodeId, req: Request, stores: Stores, answers: Answers)
    requires Rejection(hash, req) == None
    ensures AlwaysDelivers(hash, self, req, stores, answers) <==>
              Ends(answers, self, req.remainingHops, req.ttl) <= {Destination(self, req.remainingHops)}
  {
    var ends, destination := Ends(answers, self, req.remainingHops, req.ttl), Destination(self, req.remainingHops);
    hide Ends, RelayChunk, Follows;
    if ends <= {destination} {
      forall fate: Fate | Follows(answers, self, req.remainingHops, fate)
        ensures SucceedsIn(RelayChunk(hash, self, req, stores, fate), {destination})
      {
        SuccessIsAtEnd(hash, self, req, stores, fate, answers);
      }
    } else {
      var end :| end in ends && end != destination;
      var fate := EndIsReached(hash, self, req, stores, answers, end);
      assert !SucceedsIn(RelayChunk(hash, self, req, stores, fate), {destination});
    }
  }

  ghost predicate AlwaysDelivers(hash: Hash, self: NodeId, req: Request, stores: Stores, answers: Answers) {
    forall fate: Fate | Follows(answers, self, req.remainingHops, fate) ::
      SucceedsIn(RelayChunk(hash, self, req, stores, fate), {Destination(self, req.remainingHops)})
  }

  lemma PassedOn(hash: Hash, self: NodeId, req: Request, stores: Stores, fate: Fate, run: Run)
    requires Rejection(hash, req) == None && !IsFinalDestination(self, req.remainingHops)
    requires fate.forward.Delivered? && !fate.forward.replyLost && run.reply.Ok?
    requires run == RelayChunk(hash, req.remainingHops[0], Next(req, req.remainingHops[1..]), stores, fate.forward.remote)
    ensures RelayChunk(hash, self, req, stores, fate).reply == run.reply
  {
    assert Tries(hash, self, req, stores, fate).reply == run.reply;
  }

  lemma Rerouted(hash: Hash, self: NodeId, req: Request, stores: Stores, fate: Fate, run: Run)
    requires Rejection(hash, req) == None && !IsFinalDestination(self, req.remainingHops)
    requires fate.forward == NotDelivered && fate.reroute.Some? && fate.reroute.value != []
    requires fate.retry.Delivered? && !fate.retry.replyLost && run.reply.Ok?
    requires run == RelayChunk(hash, fate.reroute.value[0], Next(req, fate.reroute.value[1..]), stores, fate.retry.remote)
    ensures RelayChunk(hash, self, req, stores, fate).reply == run.reply
    ensures RelayChunk(hash, self, req, stores, fate).stores == run.stores
    ensures RelayChunk(hash, self, req, stores, fate).reroutes ==
              [Reroute(self, Destination(self, req.remainingHops), req.remainingHops[0], fate.reroute.value)] + run.reroutes
  {
    var first := Forward(hash, req.remainingHops[0], Next(req, req.remainingHops[1..]), stores, NotDelivered);
    var second := Forward(hash, fate.reroute.value[0], Next(req, fate.reroute.value[1..]), stores, fate.retry);
    var reroute := Reroute(self, Destination(self, req.remainingHops), req.remainingHops[0], fate.reroute.value);
    assert Tries(hash, self, req, stores, fate) == Both(first, reroute, second);
  }

  // ----- answers from a routing table

  /** The reroutes that a request may lead to. */
  function Queries(answers: Answers, self: NodeId, hops: seq<NodeId>, ttl: int): set<(NodeId, NodeId, NodeId)>
    decreases ttl, 1
  {
    if ttl <= 0 || IsFinalDestination(self, hops) then {} else
      {(self, Destination(self, hops), hops[0])}
      + RouteQueries(answers, hops, ttl)
      + set route, q | route in answers(self, Destination(self, hops), hops[0])
                       && q in RouteQueries(answers, route, ttl) :: q
  }

  function RouteQueries(answers: Answers, route: seq<NodeId>, ttl: int): set<(NodeId, NodeId, NodeId)>
    requires ttl > 0
    decreases ttl, 0
  {
    if route == [] then {} else Queries(answers, route[0], route[1..], ttl - 1)
  }

  ghost predicate AnswersAtTargets(answers: Answers, queries: set<(NodeId, NodeId, NodeId)>) {
    forall q, route | q in queries && route in answers(q.0, q.1, q.2) && route != [] :: Routing.EndsAt(route, q.1)
  }

  lemma {:induction false} AnswersAtTargetsLeadThere(answers: Answers, self: NodeId, hops: seq<NodeId>, ttl: int)
    requires AnswersAtTargets(answers, Queries(answers, self, hops, ttl))
    ensures Ends(answers, self, hops, ttl) <= {Destination(self, hops)}
    decreases ttl
  {
    if ttl > 0 && !IsFinalDestination(self, hops) {
      var target := Destination(self, hops);
      assert AnswersAtTargets(answers, RouteQueries(answers, hops, ttl));
      AnswersAtTargetsLeadThere(answers, hops[0], hops[1..], ttl - 1);
      forall route | route in answers(self, target, hops[0])
        ensures RouteEnds(answers, route, ttl) <= {target}
      {
        if route != [] {
          assert (self, target, hops[0]) in Queries(answers, self, hops, ttl);
          assert Routing.EndsAt(route, target);
          assert forall q | q in RouteQueries(answers, route, ttl) :: q in Queries(answers, self, hops, ttl);
          AnswersAtTargetsLeadThere(answers, route[0], route[1..], ttl - 1);
        }
      }
    }
  }

  /** What FindAlternativeRoute answers from one table. */
  function TableAnswers(db: Routing.Database, intel: Routing.Intelligence): Answers {
    (source, target, failed) =>
      {if source == "" || target == "" then []
       else Routing.Alternative(db, intel, source, target, failed)}
  }

  function QueryExcluded(db: Routing.Database, intel: Routing.Intelligence,
                         source: NodeId, target: NodeId, failed: NodeId): set<NodeId>
  {
    Routing.Excluded(db, Routing.RerouteRequest(source, target, failed), intel)
  }

  /** The table leads from source to target in at most ten allowed hops, or nowhere. */
  ghost predicate ConnectedOrSilent(db: Routing.Database, excluded: set<NodeId>, source: NodeId, target: NodeId) {
    Routing.CanExtend(db, source, target, excluded, []) ==>
      Routing.ReachesWithin(db, source, target, excluded, Routing.REROUTE_MAX_HOPS)
  }

  lemma ConnectedAnswerEndsAtTarget(db: Routing.Database, excluded: set<NodeId>, source: NodeId, target: NodeId)
    requires ConnectedOrSilent(db, excluded, source, target)
    ensures var route := Routing.Longest(db, source, target, excluded, Routing.REROUTE_MAX_HOPS);
            route != [] ==> Routing.EndsAt(route, target)
  {
    var route := Routing.Longest(db, source, target, excluded, Routing.REROUTE_MAX_HOPS);
    Routing.LongestIsLongestChain(db, source, target, excluded, Routing.REROUTE_MAX_HOPS);
    if route != [] {
      hide Routing.Longest;
      assert Routing.Origin(source, [], 0) == source && Routing.Origin(source, route, 0) == source;
      assert Routing.IsHop(db, source, target, excluded, route, 0);
      assert Routing.IsStep(db, target, excluded, source, route[0]);
      Routing.WalkFindsShortRoutes(db, source, target, excluded, Routing.REROUTE_MAX_HOPS, route);
    }
  }

  /** If the table leads from every node that may have to reroute to its target in at most ten allowed
      hops, or nowhere, a reported success is at the destination. */
  lemma ConnectedTableDelivers(hash: Hash, self: NodeId, req: Request, stores: Stores, db: Routing.Database,
                               intel: Routing.Intelligence)
    requires Rejection(hash, req) == None
    requires forall q | q in Queries(TableAnswers(db, intel), self, req.remainingHops, req.ttl) ::
               ConnectedOrSilent(db, QueryExcluded(db, intel, q.0, q.1, q.2), q.0, q.1)
    ensures AlwaysDelivers(hash, self, req, stores, TableAnswers(db, intel))
  {
    var answers := TableAnswers(db, intel);
    var queries := Queries(answers, self, req.remainingHops, req.ttl);
    hide Queries, Ends, Routing.Longest, AlwaysDelivers, ConnectedOrSilent;
    forall q, route | q in queries && route in answers(q.0, q.1, q.2) && route != []
      ensures Routing.EndsAt(route, q.1)
    {
      ConnectedAnswerEndsAtTarget(db, QueryExcluded(db, intel, q.0, q.1, q.2), q.0, q.1);
    }
    AnswersAtTargetsLeadThere(answers, self, req.remainingHops, req.ttl);
    DeliversIff(hash, self, req, stores, answers);
  }

  /** A routing table in which `self` knows a next hop for the destination but that hop knows none. */
  function DeadEnd(self: NodeId, hop: NodeId, destination: NodeId): Routing.Database {
    Routing.Database(map[(self, destination) := Routing.Route(hop, 0)], {}, false)
  }

  /** The premise is needed: from such a table the rerouter returns the truncated route [hop], and the
      chunk is reported as delivered although it is stored at `hop` and not at the destination. */
  lemma TruncatedRerouteMisdelivers(hash: Hash, self: NodeId, failed: NodeId, hop: NodeId, destination: NodeId,
                                    transferId: NodeId, data: Bytes)
    requires transferId != "" && self != "" && destination != ""
    requires self != hop && hop != destination && hop != failed
    ensures var req := Request(transferId, 0, Some(data), "", [failed, destination], 1, 5);
            var delivered := Delivered(Fate(true, NotDelivered, None, NotDelivered, None, []), false);
            var fate := Fate(true, NotDelivered, Some([hop]), delivered, None, []);
            var run := RelayChunk(hash, self, req, map[], fate);
            && run.reroutes == [Reroute(self, destination, failed, [hop])]
            && [hop] in TableAnswers(DeadEnd(self, hop, destination), None)(self, destination, failed)
            && run.reply == Ok(Response(true, hop))
            && (destination, ChunkKey(transferId, 0)) !in run.stores
  {
    var db := DeadEnd(self, hop, destination);
    assert QueryExcluded(db, None, self, destination, failed) == {failed};
    assert Routing.IsHop(db, self, destination, {failed}, [hop], 0);
    Routing.LongestIsUnique(db, self, destination, {failed}, Routing.REROUTE_MAX_HOPS, [hop]);
    var req := Request(transferId, 0, Some(data), "", [failed, destination], 1, 5);
    assert req.remainingHops[1..] == [destination];
    var remote := Fate(true, NotDelivered, None, NotDelivered, None, []);
    var passedOn := Next(req, [hop][1..]);
    var run := RelayChunk(hash, hop, passedOn, map[], remote);
    assert run == AtDestination(hash, hop, passedOn, map[], remote);
    assert run.reply == Ok(Response(true, hop)) && (destination, ChunkKey(transferId, 0)) !in run.stores && run.reroutes == [];
    var delivered := Delivered(remote, false);
    var fate := Fate(true, NotDelivered, Some([hop]), delivered, None, []);
    assert Forward(hash, hop, passedOn, map[], delivered) == run;
    Rerouted(hash, self, req, map[], fate, run);
  }
}
