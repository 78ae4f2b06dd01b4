/** services/routing/handler/handler.go, FindRoute, and internal/relay/rerouter.go.

    The routes table is keyed by (node, target). During one call it is fixed; each lookup may also
    fail with a database error. */
module Routing {
  import opened Common

  datatype Route = Route(nextHop: NodeId, latencyMs: int)

  datatype Hop = Hop(node: NodeId, hopIndex: nat, isRelay: bool)

  /** What one call sees of the database. */
  datatype Database = Database(
    routes: map<(NodeId, NodeId), Route>,
    broken: set<(NodeId, NodeId)>,  // lookups that fail with an error other than "no rows"
    listingFails: bool)             // whether listing the rows of the source fails
  {
    function Lookup(node: NodeId, target: NodeId): Option<Route> {
      if (node, target) in routes && (node, target) !in broken then Some(routes[(node, target)]) else None
    }

    function RowsOf(node: NodeId): set<(NodeId, NodeId)> {
      if listingFails then {} else set k | k in routes && k.0 == node
    }
  }

  datatype FindRouteError = InvalidArgument | Internal | RpcFailed | NoAlternative

  datatype FindRouteRequest = FindRouteRequest(
    source: NodeId, target: NodeId, maxHops: int, excludeNodes: seq<NodeId>)

  datatype FindRouteResponse = FindRouteResponse(
    hops: seq<Hop>, totalHops: nat, estimatedLatencyMs: int, directPossible: bool)

  /** The intelligence layer as FindRoute uses it: absent, or an arbitrary verdict per node. */
  type Intelligence = Option<NodeId -> bool>

  const DEFAULT_MAX_HOPS := 5
  const REROUTE_MAX_HOPS := 10

  // ----- specification

  /** Nodes the route must avoid: the requested ones and, with intelligence, the anomalous ones among
      the next hops of the source, for whatever target. */
  function Excluded(db: Database, req: FindRouteRequest, intel: Intelligence): set<NodeId> {
    (set n | n in req.excludeNodes) +
    match intel
    case None => {}
    case Some(isAnomalous) =>
      set k | k in db.RowsOf(req.source) && isAnomalous(db.routes[k].nextHop) :: db.routes[k].nextHop
  }

  /** The entry of `from` for `target` points to `to`, which may be used. */
  predicate IsStep(db: Database, target: NodeId, excluded: set<NodeId>, from: NodeId, to: NodeId) {
    db.Lookup(from, target) != None && db.Lookup(from, target).value.nextHop == to && to !in excluded
  }

  /** The node from which hop i of the path is taken. */
  function Origin(source: NodeId, path: seq<NodeId>, i: nat): NodeId
    requires i <= |path|
  {
    if i == 0 then source else path[i - 1]
  }

  /** `path` follows the next-hop entries for `target` from `source`, avoids `excluded`, and does not
      go on after the target. */
  ghost predicate IsChain(db: Database, source: NodeId, target: NodeId, excluded: set<NodeId>, path: seq<NodeId>) {
    forall i | 0 <= i < |path| :: IsHop(db, source, target, excluded, path, i)
  }

  predicate IsHop(db: Database, source: NodeId, target: NodeId, excluded: set<NodeId>, path: seq<NodeId>, i: nat)
    requires i < |path|
  {
    && IsStep(db, target, excluded, Origin(source, path, i), path[i])
    && (0 < i ==> Origin(source, path, i) != target)
  }

  /** The chain can be followed one step further than `path`. */
  ghost predicate CanExtend(db: Database, source: NodeId, target: NodeId, excluded: set<NodeId>, path: seq<NodeId>) {
    var current := Origin(source, path, |path|);
    && (path != [] ==> current != target)
    && exists to :: IsStep(db, target, excluded, current, to)
  }

  function Nodes(hops: seq<Hop>): seq<NodeId> {
    seq(|hops|, i requires 0 <= i < |hops| => hops[i].node)
  }

  function Latency(db: Database, source: NodeId, target: NodeId, path: seq<NodeId>): int {
    if path == [] then 0 else
      var n := |path| - 1;
      var hop := db.Lookup(Origin(source, path, n), target);
      Latency(db, source, target, path[..n]) + if hop.Some? then hop.value.latencyMs else 0
  }

  function HopLimit(req: FindRouteRequest): nat {
    if req.maxHops <= 0 then DEFAULT_MAX_HOPS else req.maxHops
  }

  /** The longest chain of at most maxHops hops. */
  ghost predicate IsLongestChain(db: Database, source: NodeId, target: NodeId, excluded: set<NodeId>,
                                 maxHops: nat, path: seq<NodeId>)
  {
    && IsChain(db, source, target, excluded, path)
    && |path| <= maxHops
    && (|path| < maxHops ==> !CanExtend(db, source, target, excluded, path))
  }

  predicate AreNumbered(hops: seq<Hop>, target: NodeId) {
    forall i | 0 <= i < |hops| :: hops[i].hopIndex == i + 1 && hops[i].isRelay == (hops[i].node != target)
  }

  method FindRoute(db: Database, req: FindRouteRequest, intel: Intelligence)
    returns (r: Result<FindRouteResponse, FindRouteError>)
    ensures r == Err(InvalidArgument) <==> req.source == "" || req.target == ""
    ensures r == Err(Internal) <==>
              req.source != "" && req.target != "" && (req.source, req.target) in db.broken
    ensures r.Err? ==> r.error in {InvalidArgument, Internal}
    ensures r.Ok? ==>
              var hops := r.value.hops;
              && IsLongestChain(db, req.source, req.target, Excluded(db, req, intel), HopLimit(req), Nodes(hops))
              && AreNumbered(hops, req.target)
              && r.value.totalHops == |hops|
              && r.value.estimatedLatencyMs == Latency(db, req.source, req.target, Nodes(hops))
              && r.value.directPossible ==
                 ((req.source, req.target) in db.routes
                  && db.routes[(req.source, req.target)].nextHop == req.target)
    // no hop is excluded, and none is an anomalous next hop of the source
    ensures r.Ok? ==> forall h | h in r.value.hops :: h.node !in req.excludeNodes
    ensures r.Ok? && intel.Some? && !db.listingFails ==>
              forall h, k | h in r.value.hops && k in db.routes && k.0 == req.source && db.routes[k].nextHop == h.node ::
                !intel.value(h.node)
  {
    if req.source == "" || req.target == "" {
      return Err(InvalidArgument);
    }
    var maxHops := req.maxHops;
    if maxHops <= 0 {
      maxHops := DEFAULT_MAX_HOPS;
    }
    if (req.source, req.target) in db.broken {
      return Err(Internal);
    }
    var direct := db.Lookup(req.source, req.target);
    var directPossible := direct.Some? && direct.value.nextHop == req.target;

    var excluded: set<NodeId> := {};
    for i := 0 to |req.excludeNodes|
      invariant excluded == set n | n in req.excludeNodes[..i]
    {
      excluded := excluded + {req.excludeNodes[i]};
    }
    assert req.excludeNodes[..|req.excludeNodes|] == req.excludeNodes;
    if intel.Some? {
      excluded := ExcludeAnomalous(db, db.RowsOf(req.source), intel.value, excluded);
    }
    assert excluded == Excluded(db, req, intel);

    var hops, totalLatency := Walk(db, req.source, req.target, excluded, maxHops);
    NodesOfHops(hops);
    RouteAvoids(db, req, intel, Nodes(hops));
    hide *;
    return Ok(FindRouteResponse(hops, |hops|, totalLatency, directPossible));
  }

  lemma NodesOfHops(hops: seq<Hop>)
    ensures forall h | h in hops :: h.node in Nodes(hops)
  {
    forall h | h in hops ensures h.node in Nodes(hops) {
      var i :| 0 <= i < |hops| && hops[i] == h;
      assert Nodes(hops)[i] == h.node;
    }
  }

  // What the route of a request means for the table, the list of the request and the verdicts of the
  // intelligence layer, without the notions of chain and excluded node.

  /** No hop is on the list, and none is an anomalous next hop of the source, for whatever target. */
  lemma RouteAvoids(db: Database, req: FindRouteRequest, intel: Intelligence, path: seq<NodeId>)
    requires IsLongestChain(db, req.source, req.target, Excluded(db, req, intel), HopLimit(req), path)
    ensures forall n | n in path :: n !in req.excludeNodes
    ensures intel.Some? && !db.listingFails ==>
              forall n, k | n in path && k in db.routes && k.0 == req.source && db.routes[k].nextHop == n :: !intel.value(n)
  {
    ChainAvoids(db, req.source, req.target, Excluded(db, req, intel), path);
    if intel.Some? && !db.listingFails {
      forall k | k in db.routes && k.0 == req.source && intel.value(db.routes[k].nextHop)
        ensures db.routes[k].nextHop in Excluded(db, req, intel)
      {
        assert k in db.RowsOf(req.source);
      }
    }
  }

  /** Every hop is the readable entry of the node before it, and there are at most maxHops, 5 by default. */
  lemma RouteFollowsTable(db: Database, req: FindRouteRequest, intel: Intelligence, path: seq<NodeId>, i: nat)
    requires IsLongestChain(db, req.source, req.target, Excluded(db, req, intel), HopLimit(req), path)
    requires i < |path|
    ensures |path| <= if req.maxHops <= 0 then 5 else req.maxHops
    ensures var entry := (if i == 0 then req.source else path[i - 1], req.target);
            && entry in db.routes && entry !in db.broken && db.routes[entry].nextHop == path[i]
            && (i > 0 ==> entry.0 != req.target)
  {
    assert IsHop(db, req.source, req.target, Excluded(db, req, intel), path, i);
  }

  /** A route that ends before the target and before maxHops ends where the next entry is missing,
      unreadable, or leads to a listed node or an anomalous next hop of the source. */
  lemma RouteStopsOnlyIf(db: Database, req: FindRouteRequest, intel: Intelligence, path: seq<NodeId>)
    requires IsLongestChain(db, req.source, req.target, Excluded(db, req, intel), HopLimit(req), path)
    requires |path| < if req.maxHops <= 0 then 5 else req.maxHops
    requires path == [] || path[|path| - 1] != req.target
    ensures var entry := (if path == [] then req.source else path[|path| - 1], req.target);
            || entry !in db.routes || entry in db.broken || db.routes[entry].nextHop in req.excludeNodes
            || (&& intel.Some? && !db.listingFails && intel.value(db.routes[entry].nextHop)
                && exists k :: k in db.routes && k.0 == req.source && db.routes[k].nextHop == db.routes[entry].nextHop)
  {
    var excluded := Excluded(db, req, intel);
    var entry := (if path == [] then req.source else path[|path| - 1], req.target);
    assert entry.0 == Origin(req.source, path, |path|);
    if entry in db.routes && entry !in db.broken {
      assert IsStep(db, req.target, excluded, entry.0, db.routes[entry].nextHop) || db.routes[entry].nextHop in excluded;
    }
  }

  /** The latency of a route is the sum over its entries, the empty route having none. */
  lemma LatencyAdds(db: Database, source: NodeId, target: NodeId, path: seq<NodeId>, next: NodeId)
    ensures Latency(db, source, target, []) == 0
    ensures var entry := (if path == [] then source else path[|path| - 1], target);
            entry in db.routes && entry !in db.broken ==>
              Latency(db, source, target, path + [next]) == Latency(db, source, target, path) + db.routes[entry].latencyMs
  {
    assert (path + [next])[..|path|] == path;
  }

  /** The loop over the hop chain. */
  method Walk(db: Database, source: NodeId, target: NodeId, excluded: set<NodeId>, maxHops: nat)
    returns (hops: seq<Hop>, totalLatency: int)
    ensures IsLongestChain(db, source, target, excluded, maxHops, Nodes(hops))
    ensures AreNumbered(hops, target)
    ensures totalLatency == Latency(db, source, target, Nodes(hops))
  {
    hops, totalLatency := [], 0;
    var current := source;
    var i := 0;
    assert Walked(db, source, target, excluded, hops, current, totalLatency);
    hide Walked, IsLongestChain;
    while i < maxHops
      invariant 0 <= i == |hops| <= maxHops
      invariant Walked(db, source, target, excluded, hops, current, totalLatency)
      invariant hops != [] ==> current != target
    {
      var entry := db.Lookup(current, target);
      if entry == None {
        break;
      }
      var next := entry.value.nextHop;
      if next in excluded {
        break;
      }
      WalkOn(db, source, target, excluded, hops, current, totalLatency);
      hops := hops + [Hop(next, i + 1, next != target)];
      totalLatency := totalLatency + entry.value.latencyMs;
      current := next;
      if next == target {
        break;
      }
      i := i + 1;
    }
    WalkEnds(db, source, target, excluded, maxHops, hops, current, totalLatency);
  }

  /** The hops of the walk so far, which is now at `current`. */
  ghost predicate Walked(db: Database, source: NodeId, target: NodeId, excluded: set<NodeId>,
                         hops: seq<Hop>, current: NodeId, totalLatency: int)
  {
    && IsChain(db, source, target, excluded, Nodes(hops))
    && current == Origin(source, Nodes(hops), |hops|)
    && AreNumbered(hops, target)
    && totalLatency == Latency(db, source, target, Nodes(hops))
  }

  lemma WalkOn(db: Database, source: NodeId, target: NodeId, excluded: set<NodeId>,
               hops: seq<Hop>, current: NodeId, totalLatency: int)
    requires Walked(db, source, target, excluded, hops, current, totalLatency)
    requires hops != [] ==> current != target
    requires db.Lookup(current, target).Some? && db.Lookup(current, target).value.nextHop !in excluded
    ensures var entry := db.Lookup(current, target).value;
            Walked(db, source, target, excluded, hops + [Hop(entry.nextHop, |hops| + 1, entry.nextHop != target)],
                   entry.nextHop, totalLatency + entry.latencyMs)
  {
    var next := db.Lookup(current, target).value.nextHop;
    var longer := hops + [Hop(next, |hops| + 1, next != target)];
    assert Nodes(longer) == Nodes(hops) + [next];
    AddHop(db, source, target, excluded, Nodes(hops), next);
    hide IsChain, Latency;
  }

  lemma WalkEnds(db: Database, source: NodeId, target: NodeId, excluded: set<NodeId>, maxHops: nat,
                 hops: seq<Hop>, current: NodeId, totalLatency: int)
    requires Walked(db, source, target, excluded, hops, current, totalLatency)
    requires |hops| <= maxHops
    requires || |hops| == maxHops || (hops != [] && current == target)
             || db.Lookup(current, target) == None || db.Lookup(current, target).value.nextHop in excluded
    ensures IsLongestChain(db, source, target, excluded, maxHops, Nodes(hops))
    ensures AreNumbered(hops, target) && totalLatency == Latency(db, source, target, Nodes(hops))
  {
    hide IsChain, Latency;
  }

  lemma AddHop(db: Database, source: NodeId, target: NodeId, excluded: set<NodeId>, path: seq<NodeId>, next: NodeId)
    requires IsChain(db, source, target, excluded, path)
    requires path != [] ==> path[|path| - 1] != target
    requires IsStep(db, target, excluded, Origin(source, path, |path|), next)
    ensures IsChain(db, source, target, excluded, path + [next])
    ensures Latency(db, source, target, path + [next]) ==
            Latency(db, source, target, path) + db.Lookup(Origin(source, path, |path|), target).value.latencyMs
  {
    var longer := path + [next];
    assert longer[..|path|] == path;
    forall i | 0 <= i < |longer| ensures IsHop(db, source, target, excluded, longer, i) {
      if i < |path| {
        assert IsHop(db, source, target, excluded, path, i);
      }
    }
  }

  /** The auto-exclusion loop over the rows of the source. */
  method ExcludeAnomalous(db: Database, rows: set<(NodeId, NodeId)>, isAnomalous: NodeId -> bool, start: set<NodeId>)
    returns (excluded: set<NodeId>)
    requires rows <= db.routes.Keys
    ensures excluded == start + set k | k in rows && isAnomalous(db.routes[k].nextHop) :: db.routes[k].nextHop
  {
    excluded := start;
    var todo := rows;
    while todo != {}
      invariant todo <= rows
      invariant excluded ==
                start + set k | k in rows - todo && isAnomalous(db.routes[k].nextHop) :: db.routes[k].nextHop
      decreases todo
    {
      var row :| row in todo;
      assert rows - (todo - {row}) == (rows - todo) + {row};
      todo := todo - {row};
      var node := db.routes[row].nextHop;
      if node in excluded {
        continue;
      }
      if isAnomalous(node) {
        excluded := excluded + {node};
      }
    }
    assert rows - {} == rows;
  }

  // ----- what the longest chain means

  /** The target can be reached along the next-hop entries while avoiding the excluded nodes. */
  ghost predicate Reaches(db: Database, source: NodeId, target: NodeId, excluded: set<NodeId>) {
    exists path :: IsRouteTo(db, source, target, excluded, path)
  }

  ghost predicate IsRouteTo(db: Database, source: NodeId, target: NodeId, excluded: set<NodeId>, path: seq<NodeId>) {
    && path != [] && path[|path| - 1] == target
    && IsChain(db, source, target, excluded, path)
  }

  ghost predicate Distinct(path: seq<NodeId>) {
    forall i, j | 0 <= i < j < |path| :: path[i] != path[j]
  }

  /** The walk is deterministic: what differs d hops later differed already. */
  lemma {:induction false} DifferentFutures(db: Database, source: NodeId, target: NodeId, excluded: set<NodeId>,
                                            path: seq<NodeId>, i: nat, j: nat, d: nat)
    requires IsChain(db, source, target, excluded, path)
    requires i < j && j + d < |path| && path[i + d] != path[j + d]
    ensures path[i] != path[j]
  {
    if d > 0 {
      assert IsHop(db, source, target, excluded, path, i + d) && IsHop(db, source, target, excluded, path, j + d);
      DifferentFutures(db, source, target, excluded, path, i, j, d - 1);
    }
  }

  /** A chain that ends at the target visits no node twice, and does not come back to the source
      unless the source is the target, although the walk remembers nothing. */
  lemma RouteIsLoopFree(db: Database, source: NodeId, target: NodeId, excluded: set<NodeId>, path: seq<NodeId>)
    requires IsRouteTo(db, source, target, excluded, path)
    ensures Distinct(path)
    ensures source in path ==> source == target
  {
    var last := |path| - 1;
    forall i, j | 0 <= i < j < |path| ensures path[i] != path[j] {
      assert IsHop(db, source, target, excluded, path, i + (last - j) + 1);
      DifferentFutures(db, source, target, excluded, path, i, j, last - j);
    }
    forall i | 0 <= i < last ensures path[i] != source {
      assert path[0] != path[i + 1];
      assert IsHop(db, source, target, excluded, path, 0) && IsHop(db, source, target, excluded, path, i + 1);
    }
  }

  /** All chains from one source are prefixes of each other. */
  lemma {:induction false} ChainsAgree(db: Database, source: NodeId, target: NodeId, excluded: set<NodeId>,
                                       p: seq<NodeId>, q: seq<NodeId>, n: nat)
    requires IsChain(db, source, target, excluded, p) && IsChain(db, source, target, excluded, q)
    requires n <= |p| && n <= |q|
    ensures p[..n] == q[..n]
  {
    if n > 0 {
      ChainsAgree(db, source, target, excluded, p, q, n - 1);
      assert n > 1 ==> p[n - 2] == p[..n - 1][n - 2] == q[n - 2];
      assert IsHop(db, source, target, excluded, p, n - 1) && IsHop(db, source, target, excluded, q, n - 1);
    }
  }

  function RowsFor(db: Database, target: NodeId): set<(NodeId, NodeId)> {
    set k | k in db.routes && k.1 == target
  }

  /** Every node of a loop-free route but the last has its own row, so no route is longer than the
      number of rows for its target. */
  lemma RouteFitsInRows(db: Database, source: NodeId, target: NodeId, excluded: set<NodeId>, path: seq<NodeId>)
    requires IsRouteTo(db, source, target, excluded, path)
    ensures |path| <= |RowsFor(db, target)|
  {
    RouteIsLoopFree(db, source, target, excluded, path);
    var visited := [source] + path[..|path| - 1];
    assert Distinct(visited) by {
      forall j | 0 < j < |visited| ensures visited[0] != visited[j] {
        assert visited[j] == path[j - 1];
      }
    }
    forall i | 0 <= i < |visited| ensures (visited[i], target) in RowsFor(db, target) {
      assert visited[i] == Origin(source, path, i);
      assert IsHop(db, source, target, excluded, path, i);
    }
    DistinctRows(visited, target, RowsFor(db, target));
  }

  lemma {:induction false} DistinctRows(nodes: seq<NodeId>, target: NodeId, rows: set<(NodeId, NodeId)>)
    requires Distinct(nodes)
    requires forall i | 0 <= i < |nodes| :: (nodes[i], target) in rows
    ensures |nodes| <= |rows|
  {
    if nodes != [] {
      var n := |nodes| - 1;
      var row := (nodes[n], target);
      forall i | 0 <= i < n ensures (nodes[..n][i], target) in rows - {row} {
        assert nodes[i] != nodes[n];
      }
      DistinctRows(nodes[..n], target, rows - {row});
    }
  }

  predicate EndsAt(path: seq<NodeId>, target: NodeId) {
    path != [] && path[|path| - 1] == target
  }

  ghost predicate ReachesWithin(db: Database, source: NodeId, target: NodeId, excluded: set<NodeId>, maxHops: nat) {
    exists path :: IsRouteTo(db, source, target, excluded, path) && |path| <= maxHops
  }

  /** The walk ends at the target exactly when some route of at most maxHops hops exists. */
  lemma WalkFindsShortRoutes(db: Database, source: NodeId, target: NodeId, excluded: set<NodeId>,
                             maxHops: nat, path: seq<NodeId>)
    requires IsLongestChain(db, source, target, excluded, maxHops, path)
    ensures EndsAt(path, target) <==> ReachesWithin(db, source, target, excluded, maxHops)
  {
    if ReachesWithin(db, source, target, excluded, maxHops) {
      var route :| IsRouteTo(db, source, target, excluded, route) && |route| <= maxHops;
      if |path| < |route| {
        ShorterCanExtend(db, source, target, excluded, path, route);
      } else {
        ChainsAgree(db, source, target, excluded, path, route, |route|);
        assert path[|route| - 1] == path[..|route|][|route| - 1] == target;
        assert |route| < |path| ==> IsHop(db, source, target, excluded, path, |route|);
      }
    } else {
      assert EndsAt(path, target) ==> IsRouteTo(db, source, target, excluded, path);
    }
  }

  /** With a hop limit of at least the number of rows for the target, the walk reaches the target
      exactly when the next-hop chain does. */
  lemma WalkIsComplete(db: Database, source: NodeId, target: NodeId, excluded: set<NodeId>,
                       maxHops: nat, path: seq<NodeId>)
    requires IsLongestChain(db, source, target, excluded, maxHops, path)
    requires |RowsFor(db, target)| <= maxHops
    ensures EndsAt(path, target) <==> Reaches(db, source, target, excluded)
  {
    WalkFindsShortRoutes(db, source, target, excluded, maxHops, path);
    if Reaches(db, source, target, excluded) {
      var route :| IsRouteTo(db, source, target, excluded, route);
      RouteFitsInRows(db, source, target, excluded, route);
    }
  }

  lemma ShorterCanExtend(db: Database, source: NodeId, target: NodeId, excluded: set<NodeId>,
                         path: seq<NodeId>, route: seq<NodeId>)
    requires IsChain(db, source, target, excluded, path) && IsChain(db, source, target, excluded, route)
    requires |path| < |route|
    ensures CanExtend(db, source, target, excluded, path)
  {
    ChainsAgree(db, source, target, excluded, path, route, |path|);
    assert path != [] ==> path[|path| - 1] == route[..|path|][|path| - 1];
    assert Origin(source, route, |path|) == Origin(source, path, |path|);
    assert IsHop(db, source, target, excluded, route, |path|);
    assert IsStep(db, target, excluded, Origin(source, path, |path|), route[|path|]);
  }

  lemma ChainAvoids(db: Database, source: NodeId, target: NodeId, excluded: set<NodeId>, path: seq<NodeId>)
    requires IsChain(db, source, target, excluded, path)
    ensures forall n | n in path :: n !in excluded
  {
    forall i | 0 <= i < |path| ensures path[i] !in excluded {
      assert IsHop(db, source, target, excluded, path, i);
    }
  }

  /** The longest chain of at most maxHops hops, as a function of the table. */
  function Longest(db: Database, source: NodeId, target: NodeId, excluded: set<NodeId>, maxHops: nat): (path: seq<NodeId>)
    ensures |path| <= maxHops
  {
    if maxHops == 0 then [] else
      var path := Longest(db, source, target, excluded, maxHops - 1);
      var entry := db.Lookup(Origin(source, path, |path|), target);
      if |path| < maxHops - 1 || EndsAt(path, target) || entry == None || entry.value.nextHop in excluded then path
      else path + [entry.value.nextHop]
  }

  lemma {:induction false} LongestIsLongestChain(db: Database, source: NodeId, target: NodeId, excluded: set<NodeId>,
                                                 maxHops: nat)
    ensures IsLongestChain(db, source, target, excluded, maxHops, Longest(db, source, target, excluded, maxHops))
  {
    if maxHops > 0 {
      LongestIsLongestChain(db, source, target, excluded, maxHops - 1);
      var path := Longest(db, source, target, excluded, maxHops - 1);
      var entry := db.Lookup(Origin(source, path, |path|), target);
      if |path| == maxHops - 1 && !EndsAt(path, target) && entry.Some? && entry.value.nextHop !in excluded {
        AddHop(db, source, target, excluded, path, entry.value.nextHop);
      }
    }
  }

  /** There is only one. */
  lemma LongestIsUnique(db: Database, source: NodeId, target: NodeId, excluded: set<NodeId>, maxHops: nat,
                        path: seq<NodeId>)
    requires IsLongestChain(db, source, target, excluded, maxHops, path)
    ensures path == Longest(db, source, target, excluded, maxHops)
  {
    LongestIsLongestChain(db, source, target, excluded, maxHops);
    var longest := Longest(db, source, target, excluded, maxHops);
    hide Longest;
    if |path| < |longest| {
      ShorterCanExtend(db, source, target, excluded, path, longest);
    } else if |longest| < |path| {
      ShorterCanExtend(db, source, target, excluded, longest, path);
    } else {
      ChainsAgree(db, source, target, excluded, path, longest, |path|);
      assert path[..|path|] == path && longest[..|path|] == longest;
    }
  }

  // ----- internal/relay/rerouter.go

  /** The request of a relay node that could not reach `failed`. */
  function RerouteRequest(source: NodeId, target: NodeId, failed: NodeId): FindRouteRequest {
    FindRouteRequest(source, target, REROUTE_MAX_HOPS, [failed])
  }

  /** The route that the routing service finds around `failed`. */
  function Alternative(db: Database, intel: Intelligence, source: NodeId, target: NodeId, failed: NodeId): seq<NodeId> {
    Longest(db, source, target, Excluded(db, RerouteRequest(source, target, failed), intel), REROUTE_MAX_HOPS)
  }

  /** `rpcFails`: there is no routing client, or the call does not come back. */
  method FindAlternativeRoute(db: Database, intel: Intelligence, rpcFails: bool,
                              source: NodeId, target: NodeId, failed: NodeId)
    returns (r: Result<seq<NodeId>, FindRouteError>)
    ensures var route := Alternative(db, intel, source, target, failed);
            r == if rpcFails then Err(RpcFailed)
                 else if source == "" || target == "" then Err(InvalidArgument)
                 else if (source, target) in db.broken then Err(Internal)
                 else if route == [] then Err(NoAlternative)
                 else Ok(route)
    ensures r.Ok? ==>
              && failed !in r.value
              && (EndsAt(r.value, target) <==>
                  ReachesWithin(db, source, target, Excluded(db, RerouteRequest(source, target, failed), intel),
                                REROUTE_MAX_HOPS))
    ensures r.Ok? && intel.Some? && !db.listingFails ==>
              forall n, k | n in r.value && k in db.routes && k.0 == source && db.routes[k].nextHop == n :: !intel.value(n)
  {
    if rpcFails {
      return Err(RpcFailed);
    }
    var req := RerouteRequest(source, target, failed);
    var resp := FindRoute(db, req, intel);
    if resp.Err? {
      return Err(resp.error);
    }
    LongestIsUnique(db, source, target, Excluded(db, req, intel), REROUTE_MAX_HOPS, Nodes(resp.value.hops));
    RouteAvoids(db, req, intel, Nodes(resp.value.hops));
    if resp.value.hops == [] {
      return Err(NoAlternative);
    }
    assert failed in req.excludeNodes;
    WalkFindsShortRoutes(db, source, target, Excluded(db, req, intel), REROUTE_MAX_HOPS, Nodes(resp.value.hops));
    return Ok(Nodes(resp.value.hops));
  }

  /** What the rerouter's path means for the table: at most ten hops, each the readable entry of the node
      before it. */
  lemma AlternativeFollowsTable(db: Database, intel: Intelligence, source: NodeId, target: NodeId, failed: NodeId, i: nat)
    requires i < |Alternative(db, intel, source, target, failed)|
    ensures var path := Alternative(db, intel, source, target, failed);
            var entry := (if i == 0 then source else path[i - 1], target);
            && |path| <= 10 && path[i] != failed
            && entry in db.routes && entry !in db.broken && db.routes[entry].nextHop == path[i]
  {
    var req, path := RerouteRequest(source, target, failed), Alternative(db, intel, source, target, failed);
    LongestIsLongestChain(db, source, target, Excluded(db, req, intel), REROUTE_MAX_HOPS);
    RouteAvoids(db, req, intel, path);
    RouteFollowsTable(db, req, intel, path, i);
    assert failed in req.excludeNodes;
  }

  /** It stops short of the target, or is empty, only where no other readable entry leads on. */
  lemma AlternativeStopsOnlyIf(db: Database, intel: Intelligence, source: NodeId, target: NodeId, failed: NodeId)
    requires var path := Alternative(db, intel, source, target, failed);
             |path| < 10 && (path == [] || path[|path| - 1] != target)
    ensures var path := Alternative(db, intel, source, target, failed);
            var entry := (if path == [] then source else path[|path| - 1], target);
            || entry !in db.routes || entry in db.broken || db.routes[entry].nextHop == failed
            || (&& intel.Some? && !db.listingFails && intel.value(db.routes[entry].nextHop)
                && exists k :: k in db.routes && k.0 == source && db.routes[k].nextHop == db.routes[entry].nextHop)
  {
    var req := RerouteRequest(source, target, failed);
    LongestIsLongestChain(db, source, target, Excluded(db, req, intel), REROUTE_MAX_HOPS);
    RouteStopsOnlyIf(db, req, intel, Alternative(db, intel, source, target, failed));
  }
}
