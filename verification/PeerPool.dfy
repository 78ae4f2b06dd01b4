/** internal/relay/peerpool.go: cached connections and breakers, created with double-checked locking.

    Each method below is one atomic section of the original: a locked block, or the part of GetConn
    that runs without the lock and touches only the calling thread's own variables. A thread that is
    inside GetConn or GetBreaker but between two sections is an entry of `threads`. Any interleaving
    of any number of threads is then a sequence of these calls, and Execute runs every such sequence. */
module PeerPools {
  import opened Common
  import opened CircuitBreakers

  /** A dialled connection; the dialler never hands out the same one twice. */
  type Conn = nat

  datatype Thread =
    | Dialling(node: NodeId)               // GetConn missed the map and is resolving and dialling
    | Holding(node: NodeId, conn: Conn)    // GetConn has dialled and waits for the lock
    | Discarding(conn: Conn)               // GetConn lost the race and must still close its own
    | CreatingBreaker(node: NodeId)        // GetBreaker missed the map and waits for the lock
  {
    predicate OwnsConn() {
      Holding? || Discarding?
    }
  }

  datatype Owner = InMap(node: NodeId) | HeldBy(thread: nat)

  /** What happens to breakers, in the order of the locked sections. */
  datatype BreakerEvent = Got(node: NodeId, breaker: CircuitBreaker) | Evicted(node: NodeId)

  /** `owner` maps every open connection to the one place it is in. */
  ghost predicate ConnsValid(conns: map<NodeId, Conn>, threads: map<nat, Thread>, dialled: nat,
                             open: set<Conn>, owner: map<Conn, Owner>)
  {
    && open == owner.Keys
    && (forall c | c in open :: c < dialled)
    && (forall n | n in conns :: conns[n] in owner && owner[conns[n]] == InMap(n))
    && (forall t | t in threads && threads[t].OwnsConn() ::
          threads[t].conn in owner && owner[threads[t].conn] == HeldBy(t))
    && (forall c | c in owner && owner[c].InMap? :: owner[c].node in conns && conns[owner[c].node] == c)
    && (forall c | c in owner && owner[c].HeldBy? ::
          owner[c].thread in threads && threads[owner[c].thread].OwnsConn() && threads[owner[c].thread].conn == c)
  }

  ghost predicate BreakersValid(breakers: map<NodeId, CircuitBreaker>, log: seq<BreakerEvent>) {
    && (forall n | Latest(log, n).Some? :: n in breakers && breakers[n] == Latest(log, n).value)
    && Consistent(log)
  }

  // ----- what each section keeps

  lemma KeepOnThreads(conns: map<NodeId, Conn>, threads: map<nat, Thread>, dialled: nat, open: set<Conn>,
                      owner: map<Conn, Owner>, t: nat, thread: Thread)
    requires ConnsValid(conns, threads, dialled, open, owner)
    requires t in threads && threads[t].OwnsConn() ==> thread.OwnsConn() && thread.conn == threads[t].conn
    requires !(t in threads && threads[t].OwnsConn()) ==> !thread.OwnsConn()
    ensures ConnsValid(conns, threads[t := thread], dialled, open, owner)
  {
  }

  lemma KeepOnExit(conns: map<NodeId, Conn>, threads: map<nat, Thread>, dialled: nat, open: set<Conn>,
                   owner: map<Conn, Owner>, t: nat)
    requires ConnsValid(conns, threads, dialled, open, owner)
    requires t in threads ==> !threads[t].OwnsConn()
    ensures ConnsValid(conns, threads - {t}, dialled, open, owner)
  {
  }

  lemma KeepOnDial(conns: map<NodeId, Conn>, threads: map<nat, Thread>, dialled: nat, open: set<Conn>,
                   owner: map<Conn, Owner>, t: nat, node: NodeId)
    requires ConnsValid(conns, threads, dialled, open, owner)
    requires t in threads ==> !threads[t].OwnsConn()
    ensures ConnsValid(conns, threads[t := Holding(node, dialled)], dialled + 1, open + {dialled}, owner[dialled := HeldBy(t)])
  {
  }

  lemma KeepOnInsert(conns: map<NodeId, Conn>, threads: map<nat, Thread>, dialled: nat, open: set<Conn>,
                     owner: map<Conn, Owner>, t: nat)
    requires ConnsValid(conns, threads, dialled, open, owner)
    requires t in threads && threads[t].Holding? && threads[t].node !in conns
    ensures ConnsValid(conns[threads[t].node := threads[t].conn], threads - {t}, dialled, open,
                       owner[threads[t].conn := InMap(threads[t].node)])
  {
  }

  lemma KeepOnClose(conns: map<NodeId, Conn>, threads: map<nat, Thread>, dialled: nat, open: set<Conn>,
                    owner: map<Conn, Owner>, t: nat)
    requires ConnsValid(conns, threads, dialled, open, owner) && t in threads && threads[t].OwnsConn()
    ensures ConnsValid(conns, threads - {t}, dialled, open - {threads[t].conn}, owner - {threads[t].conn})
  {
  }

  lemma KeepOnDrop(conns: map<NodeId, Conn>, threads: map<nat, Thread>, dialled: nat, open: set<Conn>,
                   owner: map<Conn, Owner>, node: NodeId)
    requires ConnsValid(conns, threads, dialled, open, owner) && node in conns
    ensures ConnsValid(conns - {node}, threads, dialled, open - {conns[node]}, owner - {conns[node]})
  {
  }

  lemma KeepOnGot(breakers: map<NodeId, CircuitBreaker>, log: seq<BreakerEvent>, node: NodeId, breaker: CircuitBreaker)
    requires BreakersValid(breakers, log) && (node in breakers ==> breaker == breakers[node])
    ensures BreakersValid(breakers[node := breaker], log + [Got(node, breaker)])
  {
    assert (log + [Got(node, breaker)])[..|log|] == log;
  }

  lemma KeepOnEvicted(breakers: map<NodeId, CircuitBreaker>, log: seq<BreakerEvent>, node: NodeId)
    requires BreakersValid(breakers, log)
    ensures BreakersValid(breakers - {node}, log + [Evicted(node)])
  {
    assert (log + [Evicted(node)])[..|log|] == log;
  }

  class PeerPool {
    var conns: map<NodeId, Conn>
    var breakers: map<NodeId, CircuitBreaker>
    var threads: map<nat, Thread>
    const maxFailures: int
    const cooldown: real

    var dialled: nat                       // connections dialled so far
    ghost var open: set<Conn>              // connections dialled and not closed
    ghost var owner: map<Conn, Owner>      // who is responsible for closing an open connection
    ghost var log: seq<BreakerEvent>

    ghost predicate Valid()
      reads this
    {
      && ConnsValid(conns, threads, dialled, open, owner)
      && BreakersValid(breakers, log)
      && forall n | n in breakers :: breakers[n].maxFailures == maxFailures && breakers[n].cooldown == cooldown
    }

    constructor (maxFailures: int, cooldown: real)
      ensures Valid() && conns == map[] && breakers == map[] && threads == map[] && log == []
      ensures this.maxFailures == maxFailures && this.cooldown == cooldown
    {
      this.maxFailures := maxFailures;
      this.cooldown := cooldown;
      conns, breakers, threads := map[], map[], map[];
      dialled := 0;
      open, owner, log := {}, map[], [];
    }

    /** GetConn, first section. */
    method ReadConn(t: nat, node: NodeId) returns (conn: Option<Conn>)
      requires Valid() && t !in threads
      modifies `threads
      ensures Valid()
      ensures conn == if node in conns then Some(conns[node]) else None
      ensures threads == if node in conns then old(threads) else old(threads)[t := Dialling(node)]
    {
      if node in conns {
        return Some(conns[node]);
      }
      hide ConnsValid, BreakersValid;
      KeepOnThreads(conns, threads, dialled, open, owner, t, Dialling(node));
      threads := threads[t := Dialling(node)];
      return None;
    }

    /** GetConn between the locks: resolving the address or dialling may fail. */
    method Dial(t: nat, ok: bool)
      requires Valid() && t in threads && threads[t].Dialling?
      modifies `threads, `dialled, `open, `owner
      ensures Valid()
      ensures threads == if ok then old(threads)[t := Holding(old(threads)[t].node, old(dialled))]
                         else old(threads) - {t}
      ensures open == if ok then old(open) + {old(dialled)} else old(open)
    {
      hide ConnsValid, BreakersValid;
      if ok {
        KeepOnDial(conns, threads, dialled, open, owner, t, threads[t].node);
        threads := threads[t := Holding(threads[t].node, dialled)];
        open, owner := open + {dialled}, owner[dialled := HeldBy(t)];
        dialled := dialled + 1;
      } else {
        KeepOnExit(conns, threads, dialled, open, owner, t);
        threads := threads - {t};
      }
    }

    /** GetConn, second section: the double check. */
    method InsertConn(t: nat) returns (conn: Conn)
      requires Valid() && t in threads && threads[t].Holding?
      modifies `threads, `conns, `owner
      ensures Valid()
      ensures var node, mine := old(threads)[t].node, old(threads)[t].conn;
              && node in conns && conns[node] == conn
              && if node in old(conns) then
                   conns == old(conns) && threads == old(threads)[t := Discarding(mine)]
                 else
                   conns == old(conns)[node := mine] && threads == old(threads) - {t}
    {
      hide ConnsValid, BreakersValid;
      var node, mine := threads[t].node, threads[t].conn;
      if node in conns {
        KeepOnThreads(conns, threads, dialled, open, owner, t, Discarding(mine));
        threads := threads[t := Discarding(mine)];
        return conns[node];
      }
      KeepOnInsert(conns, threads, dialled, open, owner, t);
      conns := conns[node := mine];
      threads := threads - {t};
      owner := owner[mine := InMap(node)];
      return mine;
    }

    /** GetConn after the lock was released in the losing branch. */
    method CloseDuplicate(t: nat)
      requires Valid() && t in threads && threads[t].Discarding?
      modifies `threads, `open, `owner
      ensures Valid()
      ensures threads == old(threads) - {t} && open == old(open) - {old(threads)[t].conn}
    {
      hide ConnsValid, BreakersValid;
      KeepOnClose(conns, threads, dialled, open, owner, t);
      var mine := threads[t].conn;
      open, owner := open - {mine}, owner - {mine};
      threads := threads - {t};
    }

    /** GetBreaker, first section. */
    method ReadBreaker(t: nat, node: NodeId) returns (breaker: Option<CircuitBreaker>)
      requires Valid() && t !in threads
      modifies `threads, `log
      ensures Valid()
      ensures if node in breakers then
                && breaker == Some(breakers[node]) && threads == old(threads)
                && log == old(log) + [Got(node, breakers[node])]
              else
                && breaker == None && threads == old(threads)[t := CreatingBreaker(node)]
                && log == old(log)
    {
      hide ConnsValid, BreakersValid;
      if node in breakers {
        KeepOnGot(breakers, log, node, breakers[node]);
        assert breakers[node := breakers[node]] == breakers;
        log := log + [Got(node, breakers[node])];
        return Some(breakers[node]);
      }
      KeepOnThreads(conns, threads, dialled, open, owner, t, CreatingBreaker(node));
      threads := threads[t := CreatingBreaker(node)];
      return None;
    }

    /** GetBreaker, second section. */
    method InsertBreaker(t: nat, ghost now: real) returns (breaker: CircuitBreaker)
      requires Valid() && t in threads && threads[t].CreatingBreaker?
      modifies `threads, `breakers, `log
      ensures Valid()
      ensures var node := old(threads)[t].node;
              && breakers == old(breakers)[node := breaker]
              && (if node in old(breakers) then breaker == old(breakers)[node] else fresh(breaker) && breaker.Valid() && breaker.log == [])
              && breaker.maxFailures == maxFailures && breaker.cooldown == cooldown
              && log == old(log) + [Got(node, breaker)]
      ensures threads == old(threads) - {t}
    {
      hide ConnsValid, BreakersValid;
      KeepOnExit(conns, threads, dialled, open, owner, t);
      var node := threads[t].node;
      threads := threads - {t};
      if node in breakers {
        breaker := breakers[node];
        assert breakers[node := breaker] == breakers;
      } else {
        breaker := new CircuitBreaker(maxFailures, cooldown, now);
      }
      KeepOnGot(breakers, log, node, breaker);
      breakers := breakers[node := breaker];
      log := log + [Got(node, breaker)];
    }

    /** Closing a connection of the map and deleting its entry, as Evict and Close do. */
    method DropConn(node: NodeId)
      requires Valid() && node in conns
      modifies `conns, `open, `owner
      ensures Valid()
      ensures conns == old(conns) - {node} && open == old(open) - {old(conns)[node]}
      ensures old(conns).Values == conns.Values + {old(conns)[node]}
    {
      hide ConnsValid, BreakersValid;
      KeepOnDrop(conns, threads, dialled, open, owner, node);
      ghost var before := conns;
      open, owner := open - {conns[node]}, owner - {conns[node]};
      conns := conns - {node};
      ValuesAfterRemoval(before, node);
    }

    method Evict(node: NodeId)
      requires Valid()
      modifies `conns, `breakers, `open, `owner, `log
      ensures Valid()
      ensures conns == old(conns) - {node} && breakers == old(breakers) - {node}
      ensures open == if node in old(conns) then old(open) - {old(conns)[node]} else old(open)
      ensures log == old(log) + [Evicted(node)]
    {
      hide ConnsValid, BreakersValid;
      if node in conns {
        DropConn(node);
      }
      KeepOnEvicted(breakers, log, node);
      breakers := breakers - {node};
      log := log + [Evicted(node)];
    }

    /** Closes what is in the map; breakers, and connections still held by a thread, are left alone. */
    method Close()
      requires Valid()
      modifies `conns, `open, `owner
      ensures Valid()
      ensures conns == map[] && open == old(open) - old(conns).Values
    {
      hide ConnsValid, BreakersValid;
      while conns != map[]
        invariant Valid()
        invariant open - conns.Values == old(open) - old(conns).Values
        decreases conns.Keys
      {
        var id :| id in conns.Keys;
        DropConn(id);
      }
      assert conns.Values == {};
    }

    /** Connections a thread inside GetConn has dialled and neither stored nor closed yet. */
    ghost function Held(): set<Conn>
      reads this
    {
      set t | t in threads && threads[t].OwnsConn() :: threads[t].conn
    }

    /** The open connections are exactly those of the map and those held by a thread; no connection
        is in two places. */
    lemma OpenIsMapPlusHeld()
      requires Valid()
      ensures open == conns.Values + Held()
      ensures conns.Values !! Held()
      ensures forall m, n | m in conns && n in conns && conns[m] == conns[n] :: m == n
      ensures forall s, t | s in threads && t in threads && threads[s].OwnsConn() && threads[t].OwnsConn()
                            && threads[s].conn == threads[t].conn :: s == t
    {
      forall c | c in open ensures c in conns.Values || c in Held() {
        if owner[c].InMap? {
          assert owner[c].node in conns;
        } else {
          assert threads[owner[c].thread].OwnsConn();
        }
      }
    }

    /** Runs one interleaving; steps that the program could not take are skipped. Whatever it is, in the
        end the open connections are those of the map and those held by a thread, and callers that got
        a breaker of the same node since its last eviction got the same one. */
    method Execute(steps: seq<Step>, ghost now: real)
      requires Valid()
      modifies this
      ensures Valid()
      ensures open == conns.Values + Held() && conns.Values !! Held()
      ensures Consistent(log) && old(log) <= log
    {
      hide ConnsValid;
      for i := 0 to |steps|
        invariant Valid()
        invariant old(log) <= log
      {
        match steps[i]
        case GetConn(t, node) =>
          if t !in threads {
            var _ := ReadConn(t, node);
          }
        case GetBreaker(t, node) =>
          if t !in threads {
            var _ := ReadBreaker(t, node);
          }
        case Continue(t, ok) =>
          if t in threads {
            match threads[t]
            case Dialling(_) => Dial(t, ok);
            case Holding(_, _) => var _ := InsertConn(t);
            case Discarding(_) => CloseDuplicate(t);
            case CreatingBreaker(_) => var _ := InsertBreaker(t, now);
          }
        case EvictNode(node) => Evict(node);
        case CloseAll => Close();
      }
      OpenIsMapPlusHeld();
    }
  }

  datatype Step =
    | GetConn(thread: nat, node: NodeId)
    | GetBreaker(thread: nat, node: NodeId)
    | Continue(thread: nat, ok: bool)  // the thread's next section; `ok` is how dialling ends
    | EvictNode(node: NodeId)
    | CloseAll

  lemma ValuesAfterRemoval(m: map<NodeId, Conn>, node: NodeId)
    requires node in m
    ensures m.Values == (m - {node}).Values + {m[node]}
  {
    assert forall n | n in m && n != node :: n in m - {node} && (m - {node})[n] == m[n];
  }

  /** The breaker that callers got for `node` since its last eviction, if any. */
  ghost function Latest(log: seq<BreakerEvent>, node: NodeId): Option<CircuitBreaker> {
    if log == [] then None else
      match log[|log| - 1]
      case Got(n, b) => if n == node then Some(b) else Latest(log[..|log| - 1], node)
      case Evicted(n) => if n == node then None else Latest(log[..|log| - 1], node)
  }

  /** Every caller got the breaker that earlier callers got since the last eviction. */
  ghost predicate Consistent(log: seq<BreakerEvent>) {
    log == [] ||
    (&& Consistent(log[..|log| - 1])
     && match log[|log| - 1]
        case Got(n, b) => Latest(log[..|log| - 1], n) in {None, Some(b)}
        case Evicted(_) => true)
  }

  lemma {:induction false} LatestIsLastGot(log: seq<BreakerEvent>, i: nat, node: NodeId)
    requires Consistent(log) && i < |log| && log[i].Got? && log[i].node == node
    requires forall k | i < k < |log| :: log[k] != Evicted(node)
    ensures Latest(log, node) == Some(log[i].breaker)
  {
    if i < |log| - 1 {
      LatestIsLastGot(log[..|log| - 1], i, node);
    }
  }

  /** Between two evictions of a node, all callers of GetBreaker get the same object. */
  lemma {:induction false} SameBreakerBetweenEvictions(log: seq<BreakerEvent>, i: nat, j: nat)
    requires Consistent(log) && i < j < |log|
    requires log[i].Got? && log[j].Got? && log[i].node == log[j].node
    requires forall k | i < k < j :: log[k] != Evicted(log[i].node)
    ensures log[i].breaker == log[j].breaker
  {
    if j == |log| - 1 {
      LatestIsLastGot(log[..j], i, log[i].node);
    } else {
      SameBreakerBetweenEvictions(log[..|log| - 1], i, j);
    }
  }
}
