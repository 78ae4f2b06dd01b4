/** services/discovery/handler/handler.go, StreamPeerUpdates: every five seconds the registry is
    compared with the previous snapshot and the differences are streamed to a subscriber. */
module PeerUpdates {
  import opened Common

  /** A row of the peers table, and equally the message that describes it. */
  datatype Peer = Peer(node: NodeId, addrs: seq<string>, publicKey: string, isRelay: bool, lastSeen: real)

  datatype Update = Joined(peer: Peer) | Updated(peer: Peer) | Left(peer: Peer)

  type Peers = map<NodeId, Peer>

  datatype StreamError = InvalidArgument

  /** Equality up to LastSeen. */
  predicate SamePeer(a: Peer, b: Peer) {
    a.addrs == b.addrs && a.publicKey == b.publicKey && a.isRelay == b.isRelay
  }

  method PeerEqual(a: Peer, b: Peer) returns (equal: bool)
    ensures equal == SamePeer(a, b)
    ensures a.node == b.node ==> (equal <==> a == b.(lastSeen := a.lastSeen))
  {
    if |a.addrs| != |b.addrs| {
      return false;
    }
    for i := 0 to |a.addrs|
      invariant a.addrs[..i] == b.addrs[..i]
    {
      if a.addrs[i] != b.addrs[i] {
        return false;
      }
    }
    assert a.addrs == a.addrs[..|a.addrs|] && b.addrs == b.addrs[..|a.addrs|];
    return a.publicKey == b.publicKey && a.isRelay == b.isRelay;
  }

  /** The rows by id, without the subscriber's own. */
  function Snapshot(rows: seq<Peer>, self: NodeId): Peers {
    if rows == [] then map[] else
      var rest := Snapshot(rows[..|rows| - 1], self);
      var last := rows[|rows| - 1];
      if last.node == self then rest else rest[last.node := last]
  }

  /** The registry lists each id once. */
  ghost predicate DistinctIds(rows: seq<Peer>) {
    forall i, j | 0 <= i < j < |rows| :: rows[i].node != rows[j].node
  }

  // ----- what a tick must emit

  /** The updates about one node. */
  function About(updates: seq<Update>, node: NodeId): seq<Update> {
    if updates == [] then [] else
      var rest := About(updates[..|updates| - 1], node);
      if updates[|updates| - 1].peer.node == node then rest + [updates[|updates| - 1]] else rest
  }

  /** The updates that one node deserves: none if nothing but LastSeen changed. */
  function Expected(known: Peers, current: Peers, node: NodeId): seq<Update> {
    if node in current then
      if node !in known then [Joined(current[node])]
      else if !SamePeer(known[node], current[node]) then [Updated(current[node])]
      else []
    else
      if node in known then [Left(known[node])] else []
  }

  /** The updates of one tick, in whatever order. */
  ghost predicate IsDiff(known: Peers, current: Peers, updates: seq<Update>) {
    forall n :: About(updates, n) == Expected(known, current, n)
  }

  /** Entries are stored under their own id. */
  ghost predicate Keyed(peers: Peers) {
    forall n | n in peers :: peers[n].node == n
  }

  class Subscription {
    const self: NodeId
    var known: Peers

    constructor (self: NodeId)
      ensures this.self == self && known == map[]
    {
      this.self := self;
      known := map[];
    }

    /** One tick. None stands for a failed read of the registry, which is skipped. */
    method Tick(registry: Option<seq<Peer>>) returns (updates: seq<Update>)
      requires Keyed(known)
      requires registry.Some? ==> DistinctIds(registry.value)
      modifies this
      ensures registry == None ==> updates == [] && known == old(known)
      ensures registry.Some? ==> known == Snapshot(registry.value, self) && IsDiff(old(known), known, updates)
      ensures Keyed(known)
    {
      if registry == None {
        return [];
      }
      var current;
      current, updates := Changes(registry.value);
      SnapshotKeys(registry.value, self);
      updates := Departures(current, updates);
      known := current;
    }

    /** The loop over the rows of the registry. */
    method Changes(all: seq<Peer>) returns (current: Peers, updates: seq<Update>)
      requires DistinctIds(all)
      ensures current == Snapshot(all, self)
      ensures IsDiffOn(current.Keys, known, current, updates)
    {
      current, updates := map[], [];
      assert IsDiffOn(current.Keys, known, current, updates);
      hide IsDiffOn;
      for i := 0 to |all|
        invariant current == Snapshot(all[..i], self)
        invariant IsDiffOn(current.Keys, known, current, updates)
      {
        assert all[..i + 1][..i] == all[..i];
        var p := all[i];
        if p.node == self {
          continue;
        }
        FreshId(all, i, self);
        AddRow(known, current, updates, p);
        current := current[p.node := p];
        if p.node !in known {
          updates := updates + [Joined(p)];
        } else {
          var equal := PeerEqual(known[p.node], p);
          if !equal {
            updates := updates + [Updated(p)];
          }
        }
      }
      assert all[..|all|] == all;
    }

    /** The loop over the peers known before. */
    method Departures(current: Peers, changes: seq<Update>) returns (updates: seq<Update>)
      requires Keyed(known)
      requires IsDiffOn(current.Keys, known, current, changes)
      ensures IsDiff(known, current, updates)
    {
      updates := changes;
      ghost var done := current.Keys;
      var todo := known.Keys;
      hide IsDiffOn;
      while todo != {}
        invariant todo <= known.Keys && done == current.Keys + (known.Keys - todo)
        invariant IsDiffOn(done, known, current, updates)
        decreases todo
      {
        var id :| id in todo;
        todo := todo - {id};
        CheckKnown(done, known, current, updates, id);
        done := done + {id};
        if id !in current {
          updates := updates + [Left(known[id])];
        }
      }
      assert done == current.Keys + known.Keys;
      EveryNodeCovered(known, current, updates);
    }
  }

  /** The updates are those of the nodes in `done`. */
  ghost predicate IsDiffOn(done: set<NodeId>, known: Peers, current: Peers, updates: seq<Update>) {
    forall n :: About(updates, n) == if n in done then Expected(known, current, n) else []
  }

  lemma AddRow(known: Peers, current: Peers, updates: seq<Update>, p: Peer)
    requires IsDiffOn(current.Keys, known, current, updates)
    requires p.node !in current
    ensures var current' := current[p.node := p];
            IsDiffOn(current'.Keys, known, current', updates + Expected(known, current', p.node))
    ensures updates + [] == updates
  {
    var current' := current[p.node := p];
    assert updates + [] == updates;
    forall n ensures About(updates + Expected(known, current', p.node), n)
                     == if n in current'.Keys then Expected(known, current', n) else []
    {
      assert About(updates, n) == if n in current.Keys then Expected(known, current, n) else [];
      OwnUpdate(known, current', updates, p, n);
    }
  }

  lemma OwnUpdate(known: Peers, current: Peers, updates: seq<Update>, p: Peer, n: NodeId)
    requires p.node in current && current[p.node] == p
    ensures var own := Expected(known, current, p.node);
            About(updates + own, n) == About(updates, n) + if n == p.node then own else []
  {
    var own := Expected(known, current, p.node);
    if own == [] {
      assert updates + own == updates;
    } else {
      AboutOneMore(updates, own[0]);
      assert own == [own[0]];
    }
  }

  lemma CheckKnown(done: set<NodeId>, known: Peers, current: Peers, updates: seq<Update>, id: NodeId)
    requires IsDiffOn(done, known, current, updates) && current.Keys <= done
    requires Keyed(known) && id in known && (id in done ==> id in current)
    ensures IsDiffOn(done + {id}, known, current, if id in current then updates else updates + [Left(known[id])])
  {
    if id !in current {
      AboutOneMore(updates, Left(known[id]));
    }
  }

  lemma EveryNodeCovered(known: Peers, current: Peers, updates: seq<Update>)
    requires IsDiffOn(current.Keys + known.Keys, known, current, updates)
    ensures IsDiff(known, current, updates)
  {
  }

  lemma AboutOneMore(updates: seq<Update>, u: Update)
    ensures forall n :: About(updates + [u], n) == About(updates, n) + if u.peer.node == n then [u] else []
  {
    assert (updates + [u])[..|updates|] == updates;
  }

  lemma {:induction false} SnapshotKeys(rows: seq<Peer>, self: NodeId)
    ensures forall n :: n in Snapshot(rows, self) <==> n != self && exists i :: 0 <= i < |rows| && rows[i].node == n
    ensures forall n | n in Snapshot(rows, self) :: Snapshot(rows, self)[n] in rows && Snapshot(rows, self)[n].node == n
  {
    if rows != [] {
      SnapshotKeys(rows[..|rows| - 1], self);
    }
  }

  lemma FreshId(rows: seq<Peer>, i: nat, self: NodeId)
    requires i < |rows| && DistinctIds(rows)
    ensures rows[i].node !in Snapshot(rows[..i], self)
  {
    SnapshotKeys(rows[..i], self);
  }

  /** The snapshot holds exactly the rows of the registry other than the subscriber's. */
  lemma {:induction false} SnapshotIsRegistry(rows: seq<Peer>, self: NodeId)
    requires DistinctIds(rows)
    ensures forall p :: p in rows && p.node != self <==> p.node in Snapshot(rows, self) && Snapshot(rows, self)[p.node] == p
  {
    if rows != [] {
      var n := |rows| - 1;
      SnapshotIsRegistry(rows[..n], self);
      FreshId(rows, n, self);
    }
  }

  // ----- the subscriber's side

  /** A subscriber keeps the latest description of every peer that has not left. */
  function Apply(view: Peers, u: Update): Peers {
    match u
    case Joined(p) => view[p.node := p]
    case Updated(p) => view[p.node := p]
    case Left(p) => view - {p.node}
  }

  function Replay(view: Peers, updates: seq<Update>): Peers {
    if updates == [] then view else
      Apply(Replay(view, updates[..|updates| - 1]), updates[|updates| - 1])
  }

  /** Same peers, and each the same in every field but LastSeen. */
  ghost predicate Agree(view: Peers, peers: Peers) {
    view.Keys == peers.Keys && forall n | n in peers :: view[n] == peers[n].(lastSeen := view[n].lastSeen)
  }

  /** What a view says about a node depends only on the updates about that node. */
  lemma {:induction false} ReplayAt(view: Peers, updates: seq<Update>, node: NodeId)
    ensures node in Replay(view, updates) <==> node in Replay(view, About(updates, node))
    ensures node in Replay(view, updates) ==>
              Replay(view, updates)[node] == Replay(view, About(updates, node))[node]
  {
    if updates != [] {
      var n := |updates| - 1;
      ReplayAt(view, updates[..n], node);
      if updates[n].peer.node == node {
        assert About(updates, node)[..|About(updates, node)| - 1] == About(updates[..n], node);
      }
    }
  }

  /** One tick brings a subscriber that agrees with the old snapshot to the new one. */
  lemma TickKeepsAgreement(view: Peers, known: Peers, current: Peers, updates: seq<Update>)
    requires Keyed(known) && Keyed(current)
    requires Agree(view, known) && IsDiff(known, current, updates)
    ensures Agree(Replay(view, updates), current)
  {
    var view' := Replay(view, updates);
    forall n
      ensures n in view' <==> n in current
      ensures n in view' ==> view'[n] == current[n].(lastSeen := view'[n].lastSeen)
    {
      ReplayAt(view, updates, n);
      ReplayExpected(view, Expected(known, current, n));
    }
  }

  lemma ReplayExpected(view: Peers, updates: seq<Update>)
    requires |updates| <= 1
    ensures Replay(view, updates) == if updates == [] then view else Apply(view, updates[0])
  {
    if updates != [] {
      assert updates[..|updates| - 1] == [];
    }
  }

  /** At most one update per peer and tick, and none for a peer that did not change up to LastSeen. */
  lemma UpdatesAreMinimal(known: Peers, current: Peers, updates: seq<Update>, node: NodeId)
    requires IsDiff(known, current, updates) && Keyed(known) && Keyed(current)
    ensures |About(updates, node)| <= 1
    ensures About(updates, node) == [] <==>
              && (node in known <==> node in current)
              && (node in known ==> known[node] == current[node].(lastSeen := known[node].lastSeen))
  {
    assert About(updates, node) == Expected(known, current, node);
  }

  lemma {:induction false} AboutMembers(updates: seq<Update>, node: NodeId, u: Update)
    ensures u in About(updates, node) <==> u in updates && u.peer.node == node
  {
    if updates != [] {
      AboutMembers(updates[..|updates| - 1], node, u);
      assert updates == updates[..|updates| - 1] + [updates[|updates| - 1]];
    }
  }

  /** Which updates a tick emits: a peer joins if it was not known, is updated if a field other than
      LastSeen changed, and leaves if it is known and gone. */
  lemma EmittedIff(known: Peers, current: Peers, updates: seq<Update>, p: Peer)
    requires IsDiff(known, current, updates) && Keyed(known) && Keyed(current)
    ensures Joined(p) in updates <==> p.node in current && current[p.node] == p && p.node !in known
    ensures Updated(p) in updates <==>
              && p.node in current && current[p.node] == p && p.node in known
              && known[p.node] != p.(lastSeen := known[p.node].lastSeen)
    ensures Left(p) in updates <==> p.node in known && known[p.node] == p && p.node !in current
  {
    AboutMembers(updates, p.node, Joined(p));
    AboutMembers(updates, p.node, Updated(p));
    AboutMembers(updates, p.node, Left(p));
    assert About(updates, p.node) == Expected(known, current, p.node);
  }

  // ----- whole streams

  /** `streams[i]` is what tick i emits for snapshot i, starting from `known`. */
  ghost predicate IsStream(self: NodeId, known: Peers, registries: seq<Option<seq<Peer>>>, streams: seq<seq<Update>>)
    decreases |registries|
  {
    && |streams| == |registries|
    && (registries != [] ==>
          match registries[0]
          case None =>
            streams[0] == [] && IsStream(self, known, registries[1..], streams[1..])
          case Some(rows) =>
            && DistinctIds(rows)
            && IsDiff(known, Snapshot(rows, self), streams[0])
            && IsStream(self, Snapshot(rows, self), registries[1..], streams[1..]))
  }

  function Concat(streams: seq<seq<Update>>): seq<Update> {
    if streams == [] then [] else streams[0] + Concat(streams[1..])
  }

  /** The last snapshot that could be read. */
  function LatestSnapshot(self: NodeId, known: Peers, registries: seq<Option<seq<Peer>>>): Peers
    decreases |registries|
  {
    if registries == [] then known else
      LatestSnapshot(self, if registries[0].Some? then Snapshot(registries[0].value, self) else known, registries[1..])
  }

  lemma {:induction false} ReplayConcat(view: Peers, a: seq<Update>, b: seq<Update>)
    ensures Replay(view, a + b) == Replay(Replay(view, a), b)
  {
    if b == [] {
      assert a + b == a;
    } else {
      ReplayConcat(view, a, b[..|b| - 1]);
      assert (a + b)[..|a + b| - 1] == a + b[..|b| - 1];
    }
  }

  /** A subscriber that starts empty and applies every update holds, after any number of ticks, the
      latest snapshot without itself, up to LastSeen. */
  lemma {:induction false} ReplayRebuildsSnapshot(self: NodeId, view: Peers, known: Peers,
                                                  registries: seq<Option<seq<Peer>>>, streams: seq<seq<Update>>)
    requires Keyed(known) && Agree(view, known)
    requires IsStream(self, known, registries, streams)
    ensures Agree(Replay(view, Concat(streams)), LatestSnapshot(self, known, registries))
    decreases |registries|
  {
    if registries != [] {
      ReplayConcat(view, streams[0], Concat(streams[1..]));
      match registries[0]
      case None =>
        ReplayRebuildsSnapshot(self, view, known, registries[1..], streams[1..]);
      case Some(rows) =>
        var current := Snapshot(rows, self);
        SnapshotKeys(rows, self);
        TickKeepsAgreement(view, known, current, streams[0]);
        ReplayRebuildsSnapshot(self, Replay(view, streams[0]), current, registries[1..], streams[1..]);
    }
  }

  lemma {:induction false} PrefixIsStream(self: NodeId, known: Peers, registries: seq<Option<seq<Peer>>>,
                                          streams: seq<seq<Update>>, n: nat)
    requires IsStream(self, known, registries, streams) && n <= |registries|
    ensures IsStream(self, known, registries[..n], streams[..n])
    decreases n
  {
    if n > 0 {
      var next := if registries[0].Some? then Snapshot(registries[0].value, self) else known;
      PrefixIsStream(self, next, registries[1..], streams[1..], n - 1);
      assert registries[..n][1..] == registries[1..][..n - 1] && streams[..n][1..] == streams[1..][..n - 1];
    }
  }

  /** The stream that a subscription emits tick by tick; the subscriber's view is right after each tick. */
  method Stream(self: NodeId, registries: seq<Option<seq<Peer>>>) returns (r: Result<seq<seq<Update>>, StreamError>)
    requires forall rows | rows in registries && rows.Some? :: DistinctIds(rows.value)
    ensures r == Err(InvalidArgument) <==> self == ""
    ensures r.Ok? ==> IsStream(self, map[], registries, r.value)
    ensures r.Ok? ==>
              forall n | 0 <= n <= |registries| ::
                Agree(Replay(map[], Concat(r.value[..n])), LatestSnapshot(self, map[], registries[..n]))
  {
    if self == "" {
      return Err(InvalidArgument);
    }
    var subscription := new Subscription(self);
    var streams := Ticks(subscription, registries);
    forall n | 0 <= n <= |registries|
      ensures Agree(Replay(map[], Concat(streams[..n])), LatestSnapshot(self, map[], registries[..n]))
    {
      PrefixIsStream(self, map[], registries, streams, n);
      ReplayRebuildsSnapshot(self, map[], map[], registries[..n], streams[..n]);
    }
    return Ok(streams);
  }

  method Ticks(subscription: Subscription, registries: seq<Option<seq<Peer>>>) returns (streams: seq<seq<Update>>)
    requires Keyed(subscription.known)
    requires forall r | r in registries && r.Some? :: DistinctIds(r.value)
    modifies subscription
    ensures IsStream(subscription.self, old(subscription.known), registries, streams)
    decreases |registries|
  {
    if registries == [] {
      return [];
    }
    var updates := subscription.Tick(registries[0]);
    var rest := Ticks(subscription, registries[1..]);
    streams := [updates] + rest;
    assert streams[1..] == rest;
  }
}
