# Verified model of a relay mesh for file chunks

This project models the algorithms and state machines of the vinctum-core repository (Go) in Dafny and
proves properties of them: the multi-hop relay handler with its replication and rerouting, the circuit
breaker and the connection pool, route computation, the token-bucket rate limiter, the event collector
with the detectors and rankings built on it, the peer-to-peer transfer, and the stream of peer updates.

Instants, durations and floating-point numbers are `real`. Clock readings, the hash, the square root,
the logarithm and everything that can fail (calls, saves, look-ups, dialling) are parameters, and every
result holds for all their values. Objects that the source updates in place are classes. Their methods
follow the source statement by statement and are proved equal to functions of the old state; results
about whole runs are lemmas about those functions. `dafny verify dfyconfig.toml` checks everything.

| file | what it models |
|---|---|
| `Common.dfy`, `Reals.dfy` | shared types; laws of real multiplication |
| `CircuitBreaker.dfy`, `RelayClient.dfy`, `PeerPool.dfy` | breaker, guarded remote calls, pool of connections and breakers |
| `Relay.dfy` | the relay handler on a whole mesh |
| `RelayRouting.dfy`, `RelayWork.dfy` | how routes decide where a chunk ends up, and how much work a request causes |
| `Replication.dfy` | replica target selection on top of peer discovery |
| `Routing.dfy` | route computation and rerouting |
| `RateLimiter.dfy` | token bucket and its clean-up |
| `Percentile.dfy`, `Collector.dfy`, `MetricsMeaning.dfy` | event log and metrics, and what the metrics mean for the events |
| `Anomaly.dfy`, `Scorer.dfy` | outlier detection, scores and ranking |
| `Transfer.dfy` | sender and receiver of a peer-to-peer transfer |
| `PeerUpdates.dfy` | registry diffs for a subscriber |

## Findings

Results that a reader of the code may not expect; each is proved.

- A relay reply with `Success=true` may come from a node that is not the destination, because
  `FindRoute` may return a truncated route and the rerouter accepts any non-empty one
  (`TruncatedRerouteMisdelivers`). It cannot happen if and only if the set of end nodes computed from the
  hop list, the TTL and the rerouter's answers contains nothing but the destination (`DeliversIff`), for
  example when the table leads to the target wherever a reroute may be asked for (`ConnectedTableDelivers`).
- A request with TTL t <= 10 can make the mesh run the handler 2^(t+1) - 1 times, over routes that the
  rerouter does return. Above TTL 10 it cannot, because those routes have at most ten hops
  (`ActivationCeilingReachedIff`). The exact maximum for every TTL and hop count is `MaxActivations`
  (`RealisticWork`, `LossyRun`). The ceiling on saves is reached up to TTL 11 (`SaveCeilingReachedIff`).
- With a burst below 1 the limiter still admits every first request of a key (`BurstBelowOneIsNotWindow`).
- Clean-up of the limiter never changes an answer if and only if the burst is at least 1 and an empty
  bucket refills within ten minutes (`EvictionInvisibleIff`).
- A node that is no worse in uptime, latency, bytes per operation and stability may score lower: moving
  few bytes loses the neutral throughput score that a node without traffic has (`RelayingCanScoreLower`).
  `NeverScoresLowerIff` gives the exact condition.
- A peer-to-peer receiver without a chunk store acknowledges chunks and drops them, so success of
  `SendFile` means that the chunks are stored if and only if the receiver has a store
  (`SuccessMeansStoredIff`).
- With the default thresholds, meshes of fewer than 8 (latency) or 11 (traffic) eligible nodes can never
  raise a spike alert (`SmallMeshesRaiseNoSpikes`), and meshes of that size can (`SpikesStartAt`).
- A registered peer whose id equals the transfer id is never chosen for a replica, because the transfer
  id is passed to `FindPeers` as the node to skip (`ReplicaCount`).

## Model

| member | source | states |
|---|---|---|
| CircuitBreakers.CircuitBreaker.constructor | internal/relay/circuitbreaker.go:28-34 | a new breaker is closed and has seen nothing |
| CircuitBreakers.CircuitBreaker.Allow | internal/relay/circuitbreaker.go:36-53 | a call is admitted iff, judged from the recorded outcomes alone, fewer than maxFailures failures follow the last success or the cooldown since the last failure is over; asking leaves no trace in the outcomes |
| CircuitBreakers.CircuitBreaker.RecordSuccess | internal/relay/circuitbreaker.go:55-60 | adds exactly one success to the history, and keeps: closed iff the failure streak is below maxFailures, half-open only after the cooldown |
| CircuitBreakers.CircuitBreaker.RecordFailure | internal/relay/circuitbreaker.go:62-70 | adds exactly one failure at the given instant to the history and keeps the same invariant |
| CircuitBreakers.CircuitBreaker.IsOpen | internal/relay/circuitbreaker.go:72-76 | is exactly the negation of what Allow would answer at the same instant |
| CircuitBreakers.StreakIsTail | internal/relay/circuitbreaker.go:55-70 | the failure streak is the run of failures at the end of the history, preceded by a success or by nothing |
| CircuitBreakers.RefusedIff | internal/relay/circuitbreaker.go:36-53 | a call is refused iff the last maxFailures outcomes, and at least one, are failures and the last failure is no longer ago than the cooldown |
| RelayClients.Call | internal/relay/client.go:20-42 | the call is tried iff the breaker admits it; a refused call records nothing, every other call records exactly one outcome, success iff it was answered |
| RelayClients.CallDeadNode | internal/relay/client.go:20-42 | a sequential caller of a dead node gets through exactly as often as the breaker's history function says, one recorded failure each time |
| RelayClients.OpenBreakerSpacesAttempts | internal/relay/circuitbreaker.go:43-48 | against an open breaker n attempts take more than n cooldowns since the last failure |
| RelayClients.DeadNodeAttemptsBounded | internal/relay/circuitbreaker.go:36-70 | from any history, n failing attempts in a run of length T obey (n - free) * cooldown < T whenever n exceeds the free attempts, of which there are at most max(1, maxFailures) |
| RelayClients.PersistentCallerGetsThrough | internal/relay/circuitbreaker.go:43-48 | recovery: a caller of a dead node that keeps asking gets n attempts in a run of length T with T <= n * (cooldown + gap + span) + cooldown, from any history |
| PeerPools.PeerPool.ReadConn | internal/relay/peerpool.go:35-40 | first section of GetConn: returns the cached connection, or makes the thread dial |
| PeerPools.PeerPool.Dial | internal/relay/peerpool.go:42-50 | between the locks: a dialled connection is open and held by its thread only; a failure changes nothing |
| PeerPools.PeerPool.InsertConn | internal/relay/peerpool.go:52-63 | double check: an existing entry wins and is returned, otherwise the own connection moves from the thread into the map |
| PeerPools.PeerPool.CloseDuplicate | internal/relay/peerpool.go:54-58 | the losing thread closes its own connection and no other |
| PeerPools.PeerPool.ReadBreaker | internal/relay/peerpool.go:66-72 | first section of GetBreaker: returns the breaker of the map if there is one |
| PeerPools.PeerPool.InsertBreaker | internal/relay/peerpool.go:74-81 | double check: creates a fresh breaker, with the pool's maxFailures and cooldown, only if the node still has none; every breaker of a valid pool has these parameters |
| PeerPools.PeerPool.Evict | internal/relay/peerpool.go:84-92 | removes the node's connection and breaker and closes exactly that connection |
| PeerPools.PeerPool.Close | internal/relay/peerpool.go:94-101 | empties the connection map and closes exactly its connections; breakers and connections held by threads stay |
| PeerPools.PeerPool.OpenIsMapPlusHeld | internal/relay/peerpool.go:34-101 | in every valid state the open connections are exactly those of the map and those held by a thread, with none in two places |
| PeerPools.PeerPool.Execute | internal/relay/peerpool.go:34-101 | every interleaving of GetConn, GetBreaker, Evict and Close by any number of threads keeps the pool valid, the open connections accounted for and the breakers handed out consistent |
| PeerPools.SameBreakerBetweenEvictions | internal/relay/peerpool.go:66-82 | callers of GetBreaker for one node with no eviction of it in between got the same object |
| Relay.Mesh.Relay | services/relay/handler/handler.go:39-133 | the handler, written as in the source, has the effect and the reply of the specification function RelayChunk, and enters handlers, calls SaveChunk and uses alternative routes exactly as often as its counts say |
| Relay.Mesh.StoreHere | services/relay/handler/handler.go:57-77 | the branch for a chunk that has arrived, with the same guarantees |
| Relay.Mesh.PassOn | services/relay/handler/handler.go:79-117 | the next hop and then at most one alternative route are tried, with the same guarantees |
| Relay.Mesh.ForwardTo | internal/relay/client.go:20-42 | the remote call as its caller sees it: not delivered, or handled with the reply passed on or lost |
| Relay.Mesh.ReplicateTo | internal/relay/replicator.go:58-89 | the replica requests have the effect of the specification function Replicate |
| Relay.RelayOnlyAdds | services/relay/handler/handler.go:39-133 | whatever fails, the only thing a request changes in any store is to put its own bytes under its own key; no stored chunk disappears |
| Relay.NoAcceptedChunkIsLost | services/relay/handler/handler.go:39-133 | a request that passes the checks ends in an error only if the node's own save failed; a rejected one changes nothing; every reply without error names a node that holds exactly the request's bytes under its key |
| Relay.FetchAfterRelay | services/relay/handler/handler.go:135-150 | fetching from the node named in the reply returns the bytes of the request and their hash |
| Relay.FetchOfOtherChunks | services/relay/handler/handler.go:135-150 | a request leaves the answer for every other chunk at every node as it was; each fetch error in exactly its case |
| Relay.RefusedIff | services/relay/handler/handler.go:40-55 | each error code in exactly its case: missing id or data, expired TTL, a given hash that differs from the hash of the data; a refused request stores nothing, and any other error is a failed own save |
| Relay.ReplyMatchesHash | services/relay/handler/handler.go:49-55 | whenever a hash is given, the bytes at the node that a reply names have that hash |
| Relay.ArrivesHere | services/relay/handler/handler.go:57-77 | with no hops left, or only the node itself, the chunk is stored here and the save alone decides the reply |
| Relay.KeptIfNobodyAnswers | services/relay/handler/handler.go:119-130 | with other hops left and no answer from anyone, the chunk is stored here and the reply is not a success |
| Relay.ReplicationReachesFactor | services/relay/handler/handler.go:57-77 | if the replica requests to the chosen targets arrive and are saved, min(rf, 1 + available peers) distinct nodes hold the request's bytes afterwards, this node among them |
| Relay.SuccessIsAtDestination | services/relay/handler/handler.go:58-117 | if every alternative route used ends at the node it was asked for, Success=true means that the replying node is the last of the original hops, or the receiver if there were none |
| RelayWork.WorkIsBounded | services/relay/handler/handler.go:44-47 | over any routes, TTL t causes at most 2^(t+1) - 1 handler activations without replicas, and with c copies at most (c+1) * 2^(t-1) - 1 saves with them |
| RelayWork.RealisticWork | services/relay/handler/handler.go:92-130 | over routes that the rerouter can return (longest chains of at most ten hops that avoid the failed node), activations and saves are at most MaxActivations and MaxSaves of the TTL and the hop count |
| RelayWork.LossyRun | services/relay/handler/handler.go:92-130 | those maxima are exact: for every TTL and hop count a run over possible routes, in which every reply is lost, reaches them (saves for hop counts below the TTL, above which they do not grow) |
| RelayWork.NewPathIsAnswer | internal/relay/rerouter.go:26-47 | any path of at most ten new nodes that avoids the failed one is what the rerouter computes from some table |
| RelayWork.CompleteTree | services/relay/handler/handler.go:80-117 | MaxActivations is at most 2^(t+1) - 1, with equality iff neither the hop list nor the alternative routes end before the TTL |
| RelayWork.CompleteSaves | services/relay/handler/handler.go:80-130 | MaxSaves is at most its ceiling, with equality under the corresponding condition |
| RelayWork.SaveCeilingClosedForm | services/relay/handler/handler.go:80-130 | that ceiling is (copies + 1) * 2^(t-1) - 1 |
| RelayWork.ActivationCeilingReachedIff | internal/relay/rerouter.go:26-31 | 2^(t+1) - 1 activations happen in some run over possible routes iff t <= 10 |
| RelayWork.SaveCeilingReachedIff | internal/relay/rerouter.go:26-31 | (c+1) * 2^(t-1) - 1 saves happen in some run over possible routes iff t <= 11, for every replication factor |
| RelayWork.ReplicaSaves | internal/relay/replicator.go:64-72 | replica requests save once each and do not cascade |
| RelayRouting.SuccessIsAtEnd | services/relay/handler/handler.go:92-117 | whatever fails, only a node in the set of end nodes, computed beforehand from hops, TTL and the rerouter's answers, can report success |
| RelayRouting.EndIsReached | services/relay/handler/handler.go:92-117 | every node in that set does report success in some run |
| RelayRouting.DeliversIff | services/relay/handler/handler.go:92-117 | an accepted request can report success at its destination only, iff the set of end nodes holds nothing else |
| RelayRouting.AnswersAtTargetsLeadThere | services/routing/handler/handler.go:93-126 | if every answer to a reroute that may be asked for ends at its target, it holds nothing else |
| RelayRouting.ConnectedTableDelivers | services/routing/handler/handler.go:93-126 | so a table that leads to the target within ten allowed hops, or nowhere, wherever a reroute may be asked for, lets no request report success elsewhere |
| RelayRouting.ConnectedReroutesDeliver | services/routing/handler/handler.go:93-126 | the same for a table that changes during the request, in terms of the reroutes that were used; sufficient, the exact condition being DeliversIff |
| RelayRouting.TruncatedRerouteMisdelivers | internal/relay/rerouter.go:36-47 | from a table with a dead end the chunk is reported as delivered although the destination does not have it |
| Replication.FindPeers | services/discovery/handler/handler.go:70-97 | the first `count` registered peers other than the asking node (all of them for a count that is not positive or too large), and both error cases |
| Replication.FoundPeersCount | services/discovery/handler/handler.go:80-94 | the answer has exactly min(limit, number of other peers) entries, all registered, and never the asking node; the limit is the count, or the registry size if that is not positive or too large |
| Replication.MoreFoundBeginTheSame | services/discovery/handler/handler.go:85-94 | a longer answer begins with the shorter one |
| Replication.ChooseTargets | internal/relay/replicator.go:21-51 | the targets are the first replicationFactor - 1 of the peers found that are not excluded; none on an error |
| Replication.TargetsAreEligible | internal/relay/replicator.go:22-51 | at most rf - 1 targets, registered, outside the excluded nodes and different from the transfer id; none for rf <= 1, an unreadable registry or an empty transfer id |
| Replication.DoublingMayWrap | internal/relay/replicator.go:29 | doubling a 32-bit replication factor gives the double or a number that FindPeers reads as "all" |
| Replication.ReplicaCount | internal/relay/replicator.go:21-51 | exactly min(rf - 1, number of registered peers other than this node and the transfer id) distinct targets are picked, none of them this node, for every 32-bit rf |
| Routing.FindRoute | services/routing/handler/handler.go:46-140 | the hops are the longest next-hop chain of at most maxHops (5 by default) hops that avoids the excluded nodes and stops at the target, numbered from 1, with their total latency; none of them is in the request's list or an anomalous next hop of the source; both error cases |
| Routing.RouteAvoids | services/routing/handler/handler.go:68-86 | no hop is in the request's list, and with a readable listing none is a next hop flagged as anomalous in any row of the source |
| Routing.RouteFollowsTable | services/routing/handler/handler.go:93-126 | each hop is the readable table entry of the node before it, at most maxHops, 5 by default, and none follows the target |
| Routing.RouteStopsOnlyIf | services/routing/handler/handler.go:98-106 | a route short of the target and of maxHops ends where the next entry is missing, unreadable, or leads to a listed or anomalous node |
| Routing.LatencyAdds | services/routing/handler/handler.go:90-120 | the total latency starts at 0 and each hop adds that of its entry |
| Routing.Walk | services/routing/handler/handler.go:88-126 | the loop computes that longest chain |
| Routing.ExcludeAnomalous | services/routing/handler/handler.go:74-86 | adds exactly the anomalous next hops among the source's rows |
| Routing.RouteIsLoopFree | services/routing/handler/handler.go:93-126 | a route that ends at the target visits no node twice and does not return to the source (unless that is the target), although the walk remembers nothing |
| Routing.ChainsAgree | services/routing/handler/handler.go:93-126 | all chains from one source are prefixes of each other |
| Routing.RouteFitsInRows | services/routing/handler/handler.go:93-126 | no route to the target is longer than the number of table rows for it |
| Routing.WalkFindsShortRoutes | services/routing/handler/handler.go:93-126 | the walk ends at the target iff a route of at most maxHops hops avoiding the excluded nodes exists |
| Routing.WalkIsComplete | services/routing/handler/handler.go:93-126 | with maxHops at least the number of rows for the target, the walk reaches the target iff the next-hop chain does |
| Routing.ChainAvoids | services/routing/handler/handler.go:102-106 | no excluded node is on the route |
| Routing.LongestIsLongestChain | services/routing/handler/handler.go:88-126 | the longest chain exists, as the value of a function |
| Routing.LongestIsUnique | services/routing/handler/handler.go:88-126 | and it is the only one, so the walk has exactly one outcome |
| Routing.FindAlternativeRoute | internal/relay/rerouter.go:21-48 | returns the longest chain of at most ten allowed hops whenever it is not empty, and each error in exactly its case; the route avoids the failed node and ends at the target iff a route of at most ten allowed hops does |
| Routing.AlternativeFollowsTable | internal/relay/rerouter.go:26-47 | at most ten hops, none the failed node, each the readable entry of the node before it |
| Routing.AlternativeStopsOnlyIf | internal/relay/rerouter.go:26-38 | it is empty or stops short of the target only where the next entry is missing, unreadable, or leads to the failed or an anomalous node |
| RateLimiters.RateLimiter.constructor | pkg/middleware/ratelimit.go:26-34 | starts with an empty table |
| RateLimiters.RateLimiter.Allow | pkg/middleware/ratelimit.go:36-59 | answer and new table are those of the functions Allowed and Admit on the old table |
| RateLimiters.RateLimiter.Cleanup | pkg/middleware/ratelimit.go:61-74 | keeps exactly the clients seen in the last ten minutes |
| RateLimiters.RequestTracksWindows | pkg/middleware/ratelimit.go:36-59 | one request keeps every bucket equal to the least slack of all sliding windows of its key, for all keys |
| RateLimiters.BucketIsWindow | pkg/middleware/ratelimit.go:36-59 | with burst >= 1 every request of every run is allowed iff for each earlier request of its key, and from itself, (allowed since) + 1 <= burst + rate * time since |
| RateLimiters.BurstBelowOneIsNotWindow | pkg/middleware/ratelimit.go:42-45 | with burst < 1 the very first request is allowed against the window rule |
| RateLimiters.IntervalBound | pkg/middleware/ratelimit.go:36-59 | any interval admits at most burst + rate * length requests of one key |
| RateLimiters.EvictionInvisible | pkg/middleware/ratelimit.go:61-74 | if rate * 600 s >= burst >= 1, any run with any clean-up ticks answers as the run without them |
| RateLimiters.WindowSurvivesEviction | pkg/middleware/ratelimit.go:36-74 | under the same condition the limiter with clean-up decides by the windows |
| RateLimiters.SlowRefillMakesEvictionVisible | pkg/middleware/ratelimit.go:66-71 | otherwise a tick in a concrete run hands out a second burst too early |
| RateLimiters.NoRefillMakesEvictionVisible | pkg/middleware/ratelimit.go:66-71 | with a burst below 1 or a negative rate, a tick in a concrete run lets a request through that would be refused |
| RateLimiters.EvictionInvisibleIff | pkg/middleware/ratelimit.go:36-74 | for every rate and integral burst, clean-up is invisible in every run iff 1 <= burst <= rate * 600 s |
| PeerUpdates.PeerEqual | services/discovery/handler/handler.go:177-187 | peers of the same node are equal iff they agree in every field but LastSeen |
| PeerUpdates.Subscription.Tick | services/discovery/handler/handler.go:131-172 | a failed read changes and emits nothing; otherwise the snapshot is the registry without the subscriber and the updates are exactly the differences |
| PeerUpdates.Subscription.Changes | services/discovery/handler/handler.go:135-159 | joined and updated peers, each reported once |
| PeerUpdates.Subscription.Departures | services/discovery/handler/handler.go:161-170 | completes them by the peers that left |
| PeerUpdates.SnapshotIsRegistry | services/discovery/handler/handler.go:135-140 | the snapshot holds exactly the registry's rows other than the subscriber's own |
| PeerUpdates.UpdatesAreMinimal | services/discovery/handler/handler.go:142-150 | at most one update per peer and tick, and none iff the peer did not change up to LastSeen |
| PeerUpdates.EmittedIff | services/discovery/handler/handler.go:142-170 | JOINED exactly for peers that were not known, UPDATED exactly for known ones with a changed field other than LastSeen, LEFT exactly for known ones that are gone, each with the right description |
| PeerUpdates.TickKeepsAgreement | services/discovery/handler/handler.go:131-172 | replaying one tick takes a view that agrees with the old snapshot to the new one |
| PeerUpdates.ReplayRebuildsSnapshot | services/discovery/handler/handler.go:120-175 | replaying all updates of any sequence of ticks rebuilds the latest readable snapshot: the same peers, each equal in every field but LastSeen |
| PeerUpdates.Stream | services/discovery/handler/handler.go:115-175 | a subscriber that starts empty and replays the emitted stream agrees with the latest snapshot, in every field but LastSeen, after every tick; an empty id is refused |
| Transfer.StepKeepsInv | internal/p2p/transfer_protocol.go:73-127 | every step of sender, receiver or stream keeps the invariant that couples both parties and the messages under way, saved chunks having the hashes they were sent with |
| Transfer.SavedIsPrefix | internal/p2p/transfer_protocol.go:73-127 | in every reachable state the saved chunks are a prefix of those sent, with their bytes, and acked <= saved <= acked + 1 |
| Transfer.AckAnswersLastChunk | internal/p2p/transfer_protocol.go:177-184 | a positive ack that the sender reads answers the chunk just sent, although its index is never checked |
| Transfer.NilMeansAllSaved | internal/p2p/transfer_protocol.go:160-187 | with a store at the receiver, a nil return means that all totalChunks chunks are stored with the bytes sent |
| Transfer.HashesAreVerified | internal/p2p/transfer_protocol.go:85-96 | in every reachable state each saved chunk, and each chunk with a positive ack, has the hash it was sent with if one was given; after a nil return that holds for all chunks |
| Transfer.WrongHashEndsTransfer | internal/p2p/transfer_protocol.go:85-95 | a chunk with a wrong hash is answered negatively, neither it nor any later chunk is saved, and SendFile never returns nil |
| Transfer.StoreHoldsNothingElse | internal/p2p/transfer_protocol.go:98-105 | the store changes by the saved chunks only |
| Transfer.CleanRunSucceeds | internal/p2p/transfer_protocol.go:149-187 | if nothing fails and the hashes given are right, any chunks are transferred and SendFile returns nil |
| Transfer.SuccessMeansStoredIff | internal/p2p/transfer_protocol.go:98-108 | a nil return guarantees stored chunks in all runs iff the receiver has a chunk store |
| Percentiles.Percentile | internal/intelligence/collector.go:206-219 | zero without samples, otherwise the sample at the clamped nearest rank of the sorted copy |
| Percentiles.SortedIsPermutation | internal/intelligence/collector.go:210-212 | the sorted copy is ascending and a permutation of the samples |
| Percentiles.PercentileIsLeast | internal/intelligence/collector.go:206-219 | the percentile is the least sample that at least ceil(p * n / 100) samples (at least one) do not exceed |
| Collectors.Collector.constructor | internal/intelligence/collector.go:17-26 | empty log, ten-minute window by default, room for 10000 events per node |
| Collectors.Collector.Record | internal/intelligence/collector.go:28-47 | appends the event, stamped if it has no timestamp, and keeps the newest maxPer; ignores events without node |
| Collectors.Collector.Prune | internal/intelligence/collector.go:175-198 | drops the leading expired events of every node and nodes without live events |
| Collectors.PruneDropsLeadingExpired | internal/intelligence/collector.go:181-197 | pruning drops exactly the leading events at or before the cutoff, and the nodes with no others |
| Collectors.Collector.Metrics | internal/intelligence/collector.go:74-156 | the metrics of exactly the events inside the window, nil if there are none |
| Collectors.Collector.AllMetrics | internal/intelligence/collector.go:158-173 | the same for every node that has any |
| Collectors.PruningIsInvisible | internal/intelligence/collector.go:28-93 | for any interleaving of Record, with its capacity limit and arbitrary timestamps, and Prune, every later answer of Metrics is that of a collector that never pruned |
| Collectors.PruningIsInvisibleToAll | internal/intelligence/collector.go:158-198 | the same for AllMetrics |
| Collectors.MetricsConserveEvents | internal/intelligence/collector.go:95-155 | successes, failures, reroutes and circuit opens add up to the events; timeouts <= failures; failure rate + uptime = 1 within [0, 1]; min <= avg <= max are true extremes and P95 is the percentile |
| MetricsMeaning.AnswerIsAboutWindow | internal/intelligence/collector.go:79-101 | an answer is about all events of the node after the cutoff, in their order; nil iff there is none |
| MetricsMeaning.CountersMean | internal/intelligence/collector.go:105-118 | which event kinds each counter counts, as numbers of positions in the log |
| MetricsMeaning.UptimeExtremes | internal/intelligence/collector.go:145-149 | uptime is 1 iff no event is a relay failure, ping failure or timeout, and 0 iff all are |
| MetricsMeaning.LatencyFiguresMean | internal/intelligence/collector.go:120-143 | minimum, maximum and P95 are positive latencies of events; no positive latency is outside the extremes; at least 95 percent of them do not exceed P95, and fewer do not exceed any smaller one |
| MetricsMeaning.NoLatencyFigures | internal/intelligence/collector.go:133-143 | all zero without a positive latency |
| MetricsMeaning.BytesOfOneMore | internal/intelligence/collector.go:130-153 | the bytes of all events are added up and shared among the successes |
| MetricsMeaning.LatencyOfOneMore | internal/intelligence/collector.go:133-139 | average latency times the number of positive latencies is their sum |
| Anomalies.MeanStd | internal/intelligence/anomaly.go:143-163 | mean, and the root of the population variance |
| Anomalies.Detect | internal/intelligence/anomaly.go:34-126 | the four kinds of alerts of every eligible node, in order; none with fewer than two nodes |
| Anomalies.EligibleIff | internal/intelligence/anomaly.go:40-49 | exactly the nodes with at least the required number of events take part |
| Anomalies.AlertComesFromNode | internal/intelligence/anomaly.go:34-60 | every alert is about one such node of the mesh, and there are none with fewer than two nodes |
| Anomalies.AlertOfNodeIff | internal/intelligence/anomaly.go:62-122 | the exact condition, node, value, threshold and severity of each of the four kinds of alert |
| Anomalies.FailureRateIsReportedIff | internal/intelligence/anomaly.go:79-91 | by default exactly the nodes with at least 10 events and a failure rate above 0.30 are reported for it |
| Anomalies.SilenceIsReportedIff | internal/intelligence/anomaly.go:110-122 | by default exactly the nodes with at least 10 events, a failure and no success are reported as unresponsive |
| Anomalies.DetectedCountsFlagged | internal/intelligence/anomaly.go:62-108 | the spike alerts of a kind are as many as values with z above the threshold |
| Anomalies.ZScoresAreStandard | internal/intelligence/anomaly.go:143-163 | the z-scores sum to 0 and their squares to n |
| Anomalies.OneSidedChebyshev | internal/intelligence/anomaly.go:62-65 | if m > 0 of n values lie more than k deviations above the mean, m * (1 + k^2) < n |
| Anomalies.SpikeAlertsAreFew | internal/intelligence/anomaly.go:34-126 | that bound for the alerts of Detect, for every configuration with thresholds >= 0 |
| Anomalies.SmallMeshesRaiseNoSpikes | internal/intelligence/anomaly.go:21-28 | with the defaults a latency spike needs at least 8 and a traffic spike at least 11 eligible nodes |
| Anomalies.OutlierIsFlaggedIff | internal/intelligence/anomaly.go:62-65 | a single higher value b among equal values a is flagged iff 1 + k^2 < n, and the others never are, so the bound is sharp |
| Anomalies.SpikesStartAt | internal/intelligence/anomaly.go:34-126 | with one outlying node among equal ones Detect raises exactly one latency spike iff there are at least 8 nodes and exactly one traffic spike iff at least 11 |
| Scoring.DefaultScoreIsWeightedSum | internal/intelligence/scorer.go:117-154 | for metrics a collector produces, the default weights give a sum in [0, 1] that the clamp leaves unchanged; the confidence is in [0, 1] |
| Scoring.FactorsReachTheirEnds | internal/intelligence/scorer.go:121-154 | where the factors reach 0 and 1: 5000 ms of latency, a fifth of the events unstable, a base-two logarithm of 10, and 50 events for full confidence |
| Scoring.WeightsOfFactors | internal/intelligence/scorer.go:15-22 | losing one factor altogether costs 0.40 for uptime, 0.30 for latency, 0.15 for throughput or stability |
| Scoring.ThroughputRisesIff | internal/intelligence/scorer.go:128-134 | more bytes per operation do not lower the throughput score iff the node had some before, has none after, or now reaches the neutral score |
| Scoring.BetterNodeScoresHigher | internal/intelligence/scorer.go:117-151 | under that condition a node that is no worse in uptime, latency, throughput and stability does not score lower |
| Scoring.NeverScoresLowerIff | internal/intelligence/scorer.go:117-151 | for given bytes per operation that holds for all such pairs of nodes iff the condition does |
| Scoring.RelayingCanScoreLower | internal/intelligence/scorer.go:128-134 | an input where it fails: a node with one answered ping scores 0.925, one that relayed a kilobyte 0.865 |
| Scoring.ScoreRoute | internal/intelligence/scorer.go:57-90 | product of the hop scores (0.5 for unknown nodes) and least confidence; zero for the empty route |
| Scoring.RouteIsNoBetterThanItsHops | internal/intelligence/scorer.go:62-78 | a route scores in [0, 1], at most every hop's factor, and never higher with one more hop |
| Scoring.TakeOut | internal/intelligence/scorer.go:62-78 | taking one hop out of the middle takes out exactly its factor and its confidence |
| Scoring.RouteScoreIsOrderFree | internal/intelligence/scorer.go:62-78 | score and confidence do not depend on the order of the hops |
| Scoring.UnknownHopHalvesScore | internal/intelligence/scorer.go:66-73 | an unknown hop, wherever it is, halves the score of a route and leaves no confidence |
| Scoring.SortDescending | internal/intelligence/scorer.go:108-113 | the in-place sort leaves the array equal to the function Ranked of its old contents |
| Scoring.InsertStep | internal/intelligence/scorer.go:110-112 | the inner loop moves one element behind everything that is not worse |
| Scoring.RankNodes | internal/intelligence/scorer.go:93-115 | the stable ranking of the scored nodes, unknown nodes with the neutral score, in descending order |
| Scoring.RankedIsStableSort | internal/intelligence/scorer.go:108-114 | the ranking is descending, a permutation, and keeps the order of equal scores |
| Scoring.UnknownNodeRanksInTheMiddle | internal/intelligence/scorer.go:95-105 | a node without events stands, with score 0.5 and no confidence, behind every better node and before every worse one |
| Scoring.KnownNodeKeepsResult | internal/intelligence/scorer.go:95-105 | every other node appears with its own result |

## Left out

- Relay.Mesh.Relay: handles one request at a time. Other requests that write the same key at the same time
  are not part of the model, and the replica requests, which the source sends concurrently and after
  replying, run one after the other before the reply.
- Relay.Mesh.ForwardTo: breaker, pool and wire encoding are one nondeterministic outcome per call; an
  empty chunk, which arrives as a missing one, is the outcome "not delivered". A remote node that goes on
  working after its caller gave up finishes before the caller continues.
- Transfer.StepKeepsInv: `SendFile` and `handleStream` are concurrent programs, so they are modelled as a
  state machine over their program points on values rather than as two loops. Sessions that write the
  same transfer at the same time and the receive callback are left out, and so is the failure to open a stream.
- RelayClients.Call: stands for ForwardChunk, FetchChunk and PingNode, which differ only in the RPC; the
  measured ping time is left out.
- PeerPools.PeerPool.Close: a thread inside GetConn may still insert a connection after Close; the source
  has no flag that prevents it, and the invariant accounts for it.
- Collectors.Collector.AllMetrics: the per-node reads of one call see the same log; calls that record
  in between are left out.
- Collectors.Collector.Metrics: sums are unbounded integers; overflow of 64-bit sums is left out.
- Anomalies.Detect: the map of metrics is a sequence in iteration order, on which only the order of the
  alerts depends; descriptions and timestamps of alerts are left out.
- PeerUpdates.Stream: a send error ends the source's stream; the model covers streams whose sends succeed.
  Update timestamps are left out.
- Routing.FindRoute: each key's look-up gives the same answer during one call. Logging of scores and the
  32-bit width of hop counts are left out.
- Floating-point rounding, the numerics of `sqrt` and `log2`, and SHA-256 itself: reals and parameters. The
  clock of the breaker and of runs with clean-up does not go backwards.
- `DetectNode`, `IsAnomalous`, `ScoreAll`, `RecordRelay`, `RecordPing`, `NodeCount` and the reason texts: filters
  and wrappers. (`NodeCount` is the one reader to which pruning is visible.)
- `UpdateRouteTable`, `ListRelays`, `RegisterRelay`, announcements and look-ups of peers: single SQL statements.
- The gateway's copy of the limiter, the interceptors, CLI, authentication, cryptography, the ML client, the
  migrator and generated code: plumbing, or a duplicate of what is modelled.
