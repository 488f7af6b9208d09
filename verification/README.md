# A verified model of the GPS-mock engine

The Go engine of maps-main drives a spoofed GPS position on a phone: it keeps a
tunnel to the device alive, follows routes and patrols, serves WebSocket clients
and can run as a cluster of nodes with one master. This project models the parts
of `engine/internal` in which several steps, callers or nodes interact, and
proves what they keep over whole runs.

Each module states an operation as a function on values and, where the Go code
updates fields or loops, as a class or method that is proved to compute that
function. The main results are lemmas about those functions over every input,
every trace or every interleaving. A critical section under a Go mutex is one
atomic step. Clocks, random draws, driver answers, file-system outcomes and
network answers are inputs. Times are nanoseconds as integers, or seconds as
reals where tokens are refilled; floating-point numbers are reals.

| files | part of the engine |
|---|---|
| `ClusterNode`, `ClusterFailover` | one cluster node: ping round, health check, takeover, messages |
| `ClusterNet`, `ClusterEpochs`, `ClusterPartition`, `ClusterSplitBrain` | nodes plus messages in flight, a network that may split, takeovers called at any time by anybody |
| `ClusterTicks`, `ClusterSettling`, `ClusterWitness` | the same network as the program runs it: a takeover comes from a health check after its own round, or is marked as a call from outside |
| `TunnelState`, `TunnelCalls`, `TunnelPaths`, `TunnelSafety` | starting the tunnel against switching the driver, any number of calls |
| `TokenBucket`, `PairThrottle`, `RateLimiter` | the pairing throttle and the per-connection limiter |
| `Int64`, `Polyline`, `PolylineProofs` | the encoded-polyline decoder |
| `Interpolation`, `Patrol` | routes and patrols |
| `BroadcastHub`, `HubDelivery` | the WebSocket hub |
| `CertSync` | pairing records shared by the nodes |
| `HealthRetry`, `AntiDrift` | retries of a lost tunnel, the anti-drift shield |
| `RoutingRegistry` | routing providers |

## What turned out false, and where the documentation differs

- A cluster elects nobody by itself. `Takeover` has one caller, the health check, which
  asks for a master that is known and overdue, and a fresh manager knows none
  (`ClusterTicks.NobodyIsEverElected`). The runs of `ClusterWitness` below therefore
  begin with exactly one call from outside the program, which makes node 2 master of
  epoch 1; nodes 0 and 1 hear its announcement and it is released. Every later takeover
  in them is that of a health check that found its master dead after a round of its own.
- "At most one master per epoch" is false: two health checks that found the same master
  dead can claim the same epoch, and each node refuses the other's message
  (`ClusterWitness.TwoMastersInOneEpoch`). `ClusterEpochs.OneMasterExactlyOverRuns` says
  exactly which runs keep it.
- "A master's `currentMaster` is me" is false: a ping round adopts another master
  without giving up the role (`ClusterWitness.MasterCanNameAnother`).
  `ClusterEpochs.SelfNamingKeptExactly` names the one step that breaks it.
- The quorum comment says that a majority of the known nodes must be reachable. Marks
  are only as fresh as the last ping round, so when the network splits between two
  health checks and their takeovers both halves elect a master
  (`ClusterWitness.StaleMarksElectBothHalves`); `ClusterPartition.MinorityQuorumExactly`
  says how many stale marks that takes. A node of a minority can do so only once
  (`ClusterTicks.AtMostOneTakeover`). With two nodes no quorum is asked for, and the two
  health checks alone make both masters (`ClusterWitness.TwoNodesBothTakeOver`).
- Trusting the higher epoch does not heal a split brain: a master that finds a newer
  one keeps the role and joins its epoch (`ClusterSplitBrain.PingMakesTwoMasters`).
- Takeover messages carry the literal "me", so a receiver names itself as its
  master; and a master known only from pings is forgotten, not replaced, when it
  is lost (`ClusterFailover.MasterKnownFromPingsIsNeverReplaced`).
- A switch can leave a driver running for good when two switches announce
  themselves before either has the lock (`TunnelSafety.OverlappingSwitchesLeak`);
  `TunnelSafety.NoLeakExactlyOverRuns` gives the exact condition.
- A recorded loss is meant to let the next start bring the tunnel back, and does
  (`TunnelPaths.LostTunnelComesBack`); but an endpoint that the health loop re-resolved
  before a forced restart recorded the loss, and stores after it, sets the active flag
  again, and the restart does nothing (`TunnelPaths.LateUpdateBlocksTheRestart`).
- The pairing throttle's comment says a success gives the whole bucket back; the code
  returns one token (`PairThrottle.SuccessKeepsEarlierCosts`), which fills the bucket
  only when one was missing (`PairThrottle.RefundFillsExactly`).
- The polyline decoder works in 64 bits, so the round trip is stated with its exact
  condition (`PolylineProofs.RoundTrip`); every route on Earth meets it.
- Of two records for one file with the same newest time the first to arrive stays
  (`CertSync.TieKeepsTheFirst`), so the order of deliveries can matter;
  `CertSync.OrderIsIrrelevantExactly` says exactly when it does not.
- Pushed times are cut to milliseconds, so a file that is newer than the peer's only
  within its millisecond is refused and not pushed again
  (`CertSync.NewerWithinTheMillisecondIsLost`); `CertSync.PushReachesPeerExactly` gives
  the exact condition.
- The watchdog's comment calls the loop idle while no tunnel is up; it retries then.

## Model

| member | source | states |
|---|---|---|
| `ClusterNode.Manager.constructor` | engine/internal/cluster/cluster.go:175-206 | a manager starts at epoch 0, knowing no master and no peer online, and is a slave unless the mode is off |
| `ClusterNode.Manager.CheckPeers` | engine/internal/cluster/cluster.go:377-439 | the loop over the peers, in any order, leaves the table, the master and the epoch a whole ping round is specified to leave |
| `ClusterNode.Manager.HasQuorumLocked` | engine/internal/cluster/cluster.go:499-511 | the count of online peers and oneself is a strict majority, or there are fewer than three nodes |
| `ClusterNode.Manager.Takeover` | engine/internal/cluster/cluster.go:459-493 | with a quorum the node becomes master of the next epoch and announces it; otherwise nothing changes |
| `ClusterNode.Manager.CheckMasterHealth` | engine/internal/cluster/cluster.go:441-451 | takes over exactly for an automatic slave whose known master is overdue |
| `ClusterNode.Manager.HandleTakeover` | engine/internal/cluster/cluster_http.go:78-103 | a newer epoch makes the node a slave of the sender's literal, heard at that moment; an older or equal one changes nothing |
| `ClusterNode.Manager.Release` | engine/internal/cluster/cluster.go:514-520 | a master becomes a slave; nothing else changes |
| `ClusterFailover.Heartbeat` | engine/internal/cluster/cluster.go:351-367 | one heartbeat is a ping round followed by the health check |
| `ClusterFailover.ScanTouchesEveryPeer` | engine/internal/cluster/cluster.go:385-425 | a round marks each peer by its own answer and touches nothing else |
| `ClusterFailover.ScanKeepsHighest` | engine/internal/cluster/cluster.go:417-423 | the round's candidate is an answering master and none that answers has a higher epoch |
| `ClusterFailover.ScanKeepsTheLast` | engine/internal/cluster/cluster.go:417-423 | of answering masters with the same epoch the one asked last is the candidate |
| `ClusterFailover.RoundAdoptsHighestMaster` | engine/internal/cluster/cluster.go:427-438 | after a round the node follows the answering master of the highest epoch, whatever the order, and only raises its epoch; with none it forgets a master it knew from pings |
| `ClusterFailover.FailoverExactly` | engine/internal/cluster/cluster.go:377-451 | one heartbeat calls the takeover if and only if the mode is auto, the role slave, no peer answers as master, the master is "me" and overdue (or the check itself came too late) |
| `ClusterFailover.HeartbeatPromotesExactly` | engine/internal/cluster/cluster.go:441-511 | a heartbeat makes a master if and only if it fires and the answering peers with the node are a majority or the cluster has fewer than three nodes |
| `ClusterFailover.FailoverExactlyOverRuns` | engine/internal/cluster/cluster.go:351-451 | over any heartbeats without a message, a slave takes over if and only if its master was announced by a message and an overdue heartbeat is reached with every round silent, or some check is stalled past the limit after a master answered |
| `ClusterFailover.MasterKnownFromPingsIsNeverReplaced` | engine/internal/cluster/cluster.go:435-451 | losing a master known only from pings never fires the failover, however long the silence; only a check stalled past the limit after a master did answer fires |
| `ClusterFailover.AnnouncedMasterIsReplacedExactly` | engine/internal/cluster/cluster_http.go:86-99 | the limit runs from the moment the message is accepted: over any silent heartbeats the node takes over if and only if one is overdue since then, and over any others if and only if one is reached so in silence or is stalled |
| `ClusterFailover.DeliveryKeepsHighest` | engine/internal/cluster/cluster_http.go:86-99 | after any takeover messages the node holds the highest epoch among them and its own, as a slave of a claimant of it unless nothing was newer |
| `ClusterFailover.DeliveryOrderIsIrrelevant` | engine/internal/cluster/cluster_http.go:86-99 | delivering a set of takeover messages in any order with duplicates yields the same epoch, role and, all saying "me", the same master |
| `ClusterEpochs.EpochsNeverFall` | engine/internal/cluster/cluster.go:432-434 | over every run of pings, takeovers, messages, releases and splits no node's epoch decreases |
| `ClusterEpochs.OnlyTakeoversCreateEpochs` | engine/internal/cluster/cluster.go:459-474 | every epoch held, in flight or remembered is zero or was claimed by a takeover, is at most the number of takeovers, none is skipped, and one node's claims strictly increase |
| `ClusterEpochs.OneMasterKeptExactly` | engine/internal/cluster/cluster.go:459-474 | one step keeps one master per epoch if and only if the epoch it enters as master has no other master |
| `ClusterEpochs.OneMasterExactlyOverRuns` | engine/internal/cluster/cluster.go:377-474 | a whole run keeps it throughout if and only if each of its steps enters freely |
| `ClusterEpochs.SelfNamingKeptExactly` | engine/internal/cluster/cluster.go:429-434 | "a master names itself" survives every step except, exactly, a master's own round that found another master |
| `ClusterPartition.CompletedRoundClears` | engine/internal/cluster/cluster.go:377-439 | a round begun and ended after a split leaves no peer of the other side marked online, whatever else happens between |
| `ClusterPartition.MinorityQuorumExactly` | engine/internal/cluster/cluster.go:499-511 | on a side without a majority a takeover is granted if and only if the stale marks from across the split outnumber what the near marks are short of a majority |
| `ClusterPartition.MinorityHasNoQuorum` | engine/internal/cluster/cluster.go:499-511 | on a side without a majority a node that has completed a round since the split has no quorum |
| `ClusterPartition.SomeSideIsMinority` | engine/internal/cluster/cluster.go:499-511 | of three or more nodes split in two, some side has no majority |
| `ClusterPartition.NodeStopsClaiming` | engine/internal/cluster/cluster.go:459-511 | on such a side a node whose own round is complete claims no epoch over every further run, whatever the other nodes have or have not noticed |
| `ClusterPartition.MinorityRun` | engine/internal/cluster/cluster.go:459-493 | over every further run no takeover happens on such a side, no node there becomes master, and the side's highest epoch never rises |
| `ClusterPartition.PartitionSafety` | engine/internal/cluster/cluster.go:377-511 | for every run of three or more fresh nodes, a split, and any run in which every node completes a round, all later takeovers are on one side only and the other side stays quiet |
| `ClusterPartition.PartitionSafetyOnceClear` | engine/internal/cluster/cluster.go:377-511 | the same from any state whose marks are bounded by the split, reached or not |
| `ClusterSettling.SettlingIsAlwaysPossible` | engine/internal/cluster/cluster.go:385-439 | any state of the running program, whatever its nodes are doing, split along any side, can go on without a call from outside until every node has completed a round |
| `ClusterSettling.SettledRunIsSettled` | engine/internal/cluster/cluster.go:351-511 | and the state it then reaches is one that partition safety is about, so partition safety speaks of every split |
| `ClusterTicks.TicksAreRuns` | engine/internal/cluster/cluster.go:351-367 | every run of the program, in which a takeover follows its own round and health check, is a run of the network, so all the results about those hold of it |
| `ClusterTicks.NobodyIsEverElected` | engine/internal/cluster/cluster.go:441-451 | in every run of fresh managers in which nobody outside calls the takeover, no node is ever master or follows one, every epoch stays zero and nothing is announced |
| `ClusterTicks.AtMostOneTakeover` | engine/internal/cluster/cluster.go:441-511 | after a split, over every run in which nobody outside calls its takeover, a node on a side without a majority takes over at most once, and not at all when its marks are clear or will be before its next check |
| `ClusterWitness.TwoMastersInOneEpoch` | engine/internal/cluster/cluster.go:441-493 | three nodes, one call from outside in the whole run and no split: the health checks of two nodes make both master of epoch 2, each refusing the other's message |
| `ClusterWitness.StaleMarksElectBothHalves` | engine/internal/cluster/cluster.go:441-511 | the same when the network splits between the two health checks and their takeovers: a single node and the other half each elect a master |
| `ClusterWitness.MasterCanNameAnother` | engine/internal/cluster/cluster.go:429-434 | one heartbeat later one of these masters follows the other and is still master |
| `ClusterWitness.SplitBrainIsReachable` | engine/internal/cluster/cluster.go:441-493 | and the epoch the two masters share is the highest there is, so that only a takeover or a release ends it |
| `ClusterWitness.TwoNodesBothTakeOver` | engine/internal/cluster/cluster.go:441-504 | from every state of a cluster of two, split or not, whose nodes were both told of a takeover, their own health checks make both master without any call from outside, of the same epoch if they were level |
| `ClusterSplitBrain.MasterEndsExactly` | engine/internal/cluster/cluster_http.go:86-99 | a step ends a mastership if and only if it is a release or delivers a newer takeover message; no ping round does |
| `ClusterSplitBrain.MasterStaysExactly` | engine/internal/cluster/cluster.go:377-520 | over a whole run a master stays master throughout if and only if it is never released and never hears of a newer takeover |
| `ClusterSplitBrain.PingMakesTwoMasters` | engine/internal/cluster/cluster.go:429-434 | an older master whose round finds the newest one takes over its epoch and stays master, and both stay masters of that epoch over every run without a granted takeover or a release of either |
| `ClusterSplitBrain.SplitBrainStays` | engine/internal/cluster/cluster.go:377-520 | two masters of the highest epoch stay so over every run of pings, messages and refused takeovers |
| `ClusterSplitBrain.DistinctClaimsKeepOneMaster` | engine/internal/cluster/cluster.go:459-474 | in a run of fresh nodes there is one master per epoch at every moment if no two nodes claimed the same epoch and no master's own round found a newer one |
| `TunnelState.Engine.MarkLost` | engine/internal/engine/engine_tunnel.go:262-279 | a lost tunnel clears the active flag and turns a ready or running status idle, and nothing else; nothing happens when none was active |
| `TunnelState.Engine.ApplyUpdate` | engine/internal/engine/engine_health.go:247-253 | a re-resolved endpoint sets the active flag without asking for the generation |
| `TunnelState.Engine.StartTunnel` | engine/internal/engine/engine_tunnel.go:170-255 | on a free lock: nothing when active; otherwise the outcome, flags, running drivers and status for an attempt that works or fails and is overtaken by a switch not at all, before its generation check, or after it |
| `TunnelState.Engine.SwitchDriver` | engine/internal/engine/engine_tunnel.go:46-156 | on a free lock: a switch that cannot build stops the old driver but keeps it and the active flag; one that can installs a new driver and starts it, with the outcome of that start when another switch overtakes it |
| `TunnelPaths.StartPathDoesWhatItPromises` | engine/internal/engine/engine_tunnel.go:170-255 | the interleaved steps of one start, overtaken or not, leave exactly what the method promises |
| `TunnelPaths.SwitchPathDoesWhatItPromises` | engine/internal/engine/engine_tunnel.go:46-156 | the interleaved steps of one switch stop the driver it found and leave what the method promises |
| `TunnelPaths.LostTunnelComesBack` | engine/internal/engine/engine_health.go:184-197 | from every state with an active tunnel, once the loss is recorded and the driver stopped, a start that works ends with the driver running and the tunnel active |
| `TunnelPaths.LateUpdateBlocksTheRestart` | engine/internal/engine/engine_maintenance.go:76-85 | an endpoint re-resolved before the loss and stored after it makes that start return at once, with the driver down and the tunnel counted as active |
| `TunnelPaths.SimulationKeepsItsStatus` | engine/internal/engine/engine_tunnel.go:177-246 | a simulation's status survives a start, whether the tunnel comes up or not |
| `TunnelCalls.RunKeepsInv` | engine/internal/engine/engine_tunnel.go:46-255 | over every interleaving the lock has one holder, every call's captured driver and generation fit its point, and the cancel hook is the running start's |
| `TunnelSafety.NeverStuckStarting` | engine/internal/engine/engine_tunnel.go:46-255 | the status is "starting" only while an unsettled start holds the lock or a switch that bumped the generation has not finished |
| `TunnelSafety.QuiescentIsNotStarting` | engine/internal/engine/engine_tunnel.go:46-255 | once every call has returned the status is not "starting" and the lock is free |
| `TunnelSafety.OneStartAtATime` | engine/internal/engine/engine_tunnel.go:170-215 | at most one driver call is in progress, on the current driver, and the cancel hook is its own |
| `TunnelSafety.SwitchCancelsTheStart` | engine/internal/engine/engine_tunnel.go:46-58 | a switch cancels exactly the start in progress, whose generation check would fail from then; a start already past its check still commits |
| `TunnelSafety.OvertakenStartNeverCommits` | engine/internal/engine/engine_tunnel.go:196-228 | a start overtaken before its generation check never commits and never resets the status, over every later run |
| `TunnelSafety.CheckPassesExactly` | engine/internal/engine/engine_tunnel.go:289-293 | the generation check passes if and only if no switch has announced itself since the start read the driver, whatever else has run |
| `TunnelSafety.DeviceInfoNamesTheDriver` | engine/internal/engine/engine_tunnel.go:113-131 | a device description, when set, is of the current driver |
| `TunnelSafety.LeakExactly` | engine/internal/engine/engine_tunnel.go:59-131 | one step lets another driver keep a tunnel if and only if it installs over a running driver that the switch did not stop |
| `TunnelSafety.LeakFromHistory` | engine/internal/engine/engine_tunnel.go:49-131 | read from the history: the installing switch leaks if and only if another switch has installed its driver since this one announced itself and that driver is running |
| `TunnelSafety.NoLeakExactlyOverRuns` | engine/internal/engine/engine_tunnel.go:46-255 | a whole run has no other running driver throughout if and only if none of its steps is such a step |
| `TunnelSafety.NoSupersededTunnelSurvives` | engine/internal/engine/engine_tunnel.go:46-255 | if switches do not overlap, at every moment of every run only the current driver can have a tunnel, whatever the number of starts |
| `TunnelSafety.OverlappingSwitchesLeak` | engine/internal/engine/engine_tunnel.go:49-58 | a reachable end of two overlapping switches with a superseded driver running |
| `TokenBucket.LevelIsLeastSlack` | engine/internal/server/pair_throttle.go:58-83 | a bucket's level is the least slack over all windows that end now |
| `TokenBucket.GrantsExactlyWithinBudget` | engine/internal/server/pair_throttle.go:58-83 | a bucket that starts full grants an attempt if and only if every window ending with it stays within the burst plus the rate |
| `TokenBucket.WindowBound` | engine/internal/server/hub.go:40-53 | any window of T seconds grants at most burst + rate * T |
| `RateLimiter.Limiter.Allow` | engine/internal/server/hub.go:40-53 | refill, cap, and one token taken when there is one |
| `RateLimiter.MessageBound` | engine/internal/server/hub.go:40-53 | at most 20 + 10 T messages in any T seconds on one connection |
| `RateLimiter.MessageAllowedExactly` | engine/internal/server/hub.go:40-53 | a message is allowed if and only if all windows ending with it stay within that budget |
| `PairThrottle.Throttle.PruneLocked` | engine/internal/server/pair_throttle.go:101-107 | deletes exactly the entries idle for more than thirty minutes |
| `PairThrottle.Throttle.Allow` | engine/internal/server/pair_throttle.go:58-83 | prunes, then charges the address's bucket, a full one when it has none |
| `PairThrottle.Throttle.Refund` | engine/internal/server/pair_throttle.go:88-96 | one token back up to the burst, nothing for an address that is not there |
| `PairThrottle.PruningIsInvisible` | engine/internal/server/pair_throttle.go:58-107 | for every trace of attempts and refunds the pruned map gives the same answers as one that never deletes |
| `PairThrottle.PruningIsInvisibleFrom` | engine/internal/server/pair_throttle.go:58-107 | the same from any two maps that differ only by expired entries |
| `PairThrottle.OnlyRecentEntriesRemain` | engine/internal/server/pair_throttle.go:101-107 | after an attempt the map holds only addresses seen within the limit |
| `PairThrottle.PairingRateBound` | engine/internal/server/pair_throttle.go:58-96 | in any window of any trace, allowed attempts less refunds from one address are at most 5 + T/10 |
| `PairThrottle.AttemptsExactly` | engine/internal/server/pair_throttle.go:58-107 | over any trace of attempts and refunds from any addresses, an attempt is allowed if and only if, since each attempt of its address, those allowed, less the refunds, and this one are at most five plus one per ten seconds |
| `PairThrottle.RefundFillsExactly` | engine/internal/server/pair_throttle.go:88-96 | a refund fills the bucket if and only if at most one token was missing; otherwise it gives back one |
| `PairThrottle.SuccessKeepsEarlierCosts` | engine/internal/server/pair_throttle.go:58-96 | three attempts and one success leave three tokens of five |
| `Polyline.DecodeValue` | engine/internal/routing/geometry.go:47-65 | the shift-and-or loop, bit by bit in 64 bits, reads the first zigzag value, or fails at the end of the string |
| `Polyline.GroupsByByte` | engine/internal/routing/geometry.go:47-56 | each byte, also one below 63, carries its five low bits less 63, and below 95 it is the last |
| `Int64.GroupIsAdded` | engine/internal/routing/geometry.go:53-56 | or-ing a shifted group into the groups below it is wrapped addition, whatever the shift passes bit 63 |
| `Polyline.DecodeEncodedPolyline` | engine/internal/routing/geometry.go:23-45 | the loop with its running sums gives the specified points, each with its own latitude and longitude in units of 0.00001 degree, or an error |
| `PolylineProofs.ZigZagRoundTrip` | engine/internal/routing/geometry.go:57-63 | in 64 bits zigzag returns the number of [-2^62, 2^62) that is congruent to the value modulo 2^63: the value itself if and only if it lies there once wrapped |
| `PolylineProofs.RoundTrip` | engine/internal/routing/geometry.go:23-65 | decoding the standard encoding of any 64-bit points returns them if and only if every step from one point to the next, wrapped to 64 bits, lies in [-2^62, 2^62) |
| `PolylineProofs.EarthRoundTrip` | engine/internal/routing/geometry.go:23-65 | so every list of coordinates on Earth comes back exactly, latitude as latitude and longitude as longitude |
| `PolylineProofs.FarStepIsLost` | engine/internal/routing/geometry.go:57-63 | a first latitude of 2^62 comes back negated |
| `PolylineProofs.DecodesExactly` | engine/internal/routing/geometry.go:23-65 | decoding succeeds if and only if the string is not empty, ends in a terminator and has an even number of them; it yields half as many points |
| `PolylineProofs.DecodeShifted` | engine/internal/routing/geometry.go:30-41 | starting elsewhere shifts every point |
| `PolylineProofs.DecodeOfConcat` | engine/internal/routing/geometry.go:23-65 | decoding u + v gives the points of u, then those of v shifted by the last of u |
| `Interpolation.Interpolate` | engine/internal/simulation/geometry.go:22-54 | the nested loops give the specified route for a stride of one second at the speed, or at 15 km/h when it is not positive; fewer than two points unchanged |
| `Interpolation.CountBound` | engine/internal/simulation/geometry.go:22-54 | N points for n raw ones: length/v <= N - 1 <= length/v + (n - 1) |
| `Interpolation.RawPointsAreKept` | engine/internal/simulation/geometry.go:30-53 | all raw points are kept, in order, the first and last at the ends |
| `Interpolation.HopsAreShort` | engine/internal/simulation/geometry.go:36-50 | in both coordinates inserted point s is exactly s strides from the start of its segment, as long as they fit in it, and the end follows; a segment of at most one stride gets its end only |
| `Interpolation.ShortHopIsShort` | engine/internal/simulation/geometry.go:36-50 | a short hop moves both coordinates by at most one stride's share of the segment |
| `Interpolation.EveryHopIsShort` | engine/internal/simulation/geometry.go:22-54 | any two neighbours of the result lie on one segment in order, at most one stride of its length apart, and point k of the result is as many strides along a long segment as there are seconds since its start |
| `BroadcastHub.Hub.Register` | engine/internal/server/hub.go:164-166 | adds the client and counts the registration |
| `BroadcastHub.Hub.Unregister` | engine/internal/server/hub.go:167-172 | closes and removes a served client; closing a closed queue panics |
| `BroadcastHub.Hub.Broadcast` | engine/internal/server/hub.go:173-188 | in any order of clients: queued for those with room, the others closed and dropped, all counters advanced; sending to a closed queue panics |
| `BroadcastHub.Hub.SnapshotAndReset` | engine/internal/server/hub.go:195-197 | returns and zeroes the two resettable counters only |
| `HubDelivery.HistoryTells` | engine/internal/server/hub.go:158-191 | which clients are served and which queues closed, from the events alone |
| `HubDelivery.PanicsExactly` | engine/internal/server/hub.go:158-191 | a run closes a queue twice or sends to a closed one if and only if some client registers again after its removal and the hub reaches it again |
| `HubDelivery.NoPanicWhenClientsJoinOnce` | engine/internal/server/websocket.go:44-45 | when each connection registers once, no run panics |
| `HubDelivery.DeliveryHasNoGaps` | engine/internal/server/hub.go:158-191 | a client's queue is exactly the messages broadcast between its registration and its removal, in order, and is closed by the removal only |
| `HubDelivery.CountersBalance` | engine/internal/server/hub.go:158-204 | over every run: registrations = connected + unregistered + dropped; connected is the number of clients plus repeated registrations; the byte total is the bytes in all queues; snapshots plus live counters equal the totals |
| `CertSync.Node.WriteLocalPlist` | engine/internal/cluster/cluster_certsync.go:166-211 | a received record replaces the file when it is newer or carries no time, and leaves its time there and in the cache; every other outcome changes nothing |
| `CertSync.Node.PushChangedCerts` | engine/internal/cluster/cluster_certsync.go:81-143 | sends exactly the readable files newer than their cached time and caches their times; without peers, nothing |
| `CertSync.NewestWins` | engine/internal/cluster/cluster_certsync.go:166-211 | whatever the order and repeats, each file ends as the newest of what was there and what arrived |
| `CertSync.OrderIsIrrelevant` | engine/internal/cluster/cluster_certsync.go:166-211 | two nodes with the same folder that take the same timed records, none tied for newest, end with the same folder |
| `CertSync.OrderIsIrrelevantExactly` | engine/internal/cluster/cluster_certsync.go:166-211 | every order and repetition of deliveries ends with the same folder if and only if no two records for one file, newer than it and than the other records, share a time and differ in content |
| `CertSync.TieKeepsTheFirst` | engine/internal/cluster/cluster_certsync.go:180-186 | of two tied records the one that arrives first stays, whatever other records arrive after it |
| `CertSync.StoredTimeGoesBackExactly` | engine/internal/cluster/cluster_certsync.go:180-210 | a stored time goes back if and only if a record is written with the time of the write and the clock is behind the file |
| `CertSync.AcceptedIsSettledExactly` | engine/internal/cluster/cluster_certsync.go:199-210 | an accepted record is not pushed back, except if and only if its time could not be set and the clock was past it |
| `CertSync.PushesExactly` | engine/internal/cluster/cluster_certsync.go:101-137 | a push sends exactly the files that are there, can be read and are unseen or newer than the time last seen, with their content and their time in milliseconds |
| `CertSync.EditIsPushedExactly` | engine/internal/cluster/cluster_certsync.go:101-137 | a file that was pushed and is then edited is sent with its new content by the next push that can read it if and only if the edit gave it a later time, through any events that are not about it and any pushes that could not read it |
| `CertSync.NotPushedUntilChanged` | engine/internal/cluster/cluster_certsync.go:101-142 | a settled file is not pushed over any run until it changes locally or is written with the time of the write |
| `CertSync.PushIsNotRepeated` | engine/internal/cluster/cluster_certsync.go:130-142 | a file that was pushed, delivered or not, is not pushed again until then |
| `CertSync.EchoIsIgnoredExactly` | engine/internal/cluster/cluster_certsync.go:134-186 | a push that comes back to its owner is ignored if and only if the file is from after the first millisecond of 1970 |
| `CertSync.PushReachesPeerExactly` | engine/internal/cluster/cluster_certsync.go:134-210 | a delivered push leaves the peer with the pushed content if and only if the peer had no such file or had that content, the message carries no time, or its milliseconds are past the peer's file |
| `CertSync.NewerWithinTheMillisecondIsLost` | engine/internal/cluster/cluster_certsync.go:134-186 | a file newer by 500 ns within one millisecond is refused by the peer and, over any run, not pushed again until it changes |
| `HealthRetry.HealthLoop.Run` | engine/internal/engine/engine_health.go:115-144 | one turn of the loop: reset, attempt when due, next interval |
| `HealthRetry.IntervalAfterFailures` | engine/internal/engine/engine_health.go:128-142 | in a run in which every attempt fails, k attempts leave min(30 * 2^k, 300) seconds |
| `HealthRetry.IntervalFromHistory` | engine/internal/engine/engine_health.go:115-144 | over any run, whatever tunnels and signals come and go, the interval is min(30 * 2^k, 300) seconds for k failures since the last signal, tunnel that was up or attempt that worked |
| `HealthRetry.FailingRate` | engine/internal/engine/engine_health.go:128-142 | in a failing run m attempts within T seconds satisfy 300 m <= T + 780, so at most 3 + T/300 |
| `HealthRetry.FailingRateIsMet` | engine/internal/engine/engine_health.go:128-142 | for every m from four on some failing run meets that bound with equality |
| `HealthRetry.AttemptRate` | engine/internal/engine/engine_health.go:115-144 | in any reachable state and whatever tunnels come and go, at most 1 + resets + T/30 retries of a tunnel that is down in T seconds |
| `HealthRetry.SilenceIsBounded` | engine/internal/engine/engine_health.go:128-142 | while no tunnel is up, the last attempt is never more than five minutes ago without a new one |
| `AntiDrift.Shield.ReportRealLocation` | engine/internal/engine/engine.go:329-365 | the first locked section: counts, forces, or clears |
| `AntiDrift.Shield.FinishReinjection` | engine/internal/engine/engine.go:373-379 | only a re-injection that worked clears the count |
| `AntiDrift.ForcedExactly` | engine/internal/engine/engine.go:346-363 | over any reports and re-injections, one is forced if and only if the device is more than 100 m away and was so before, with nothing between that found it nearer or put it back, and none was forced in the last 15 s |
| `AntiDrift.ReinjectionsAreSpaced` | engine/internal/engine/engine.go:346-363 | any two forced re-injections of a run are more than 15 s apart |
| `Patrol.Patroller.Step` | engine/internal/engine/simulation.go:170-256 | one tick: target, step, and the point sent |
| `Patrol.TargetFollowsTheDraws` | engine/internal/engine/simulation.go:178-220 | a rectangle's target lies as far between the bounds, in either order, as the draw of each coordinate says; without a zone the draws move it around the patrol |
| `Patrol.StepCovers` | engine/internal/engine/simulation.go:222-234 | a tick moves both coordinates by exactly 5/3.6 metres of the distance to the target, or reaches and drops it |
| `Patrol.WalksStraight` | engine/internal/engine/simulation.go:222-234 | over a whole approach the patrol is n times 5/3.6 metres along the straight way after n ticks |
| `Patrol.ReachesItsTarget` | engine/internal/engine/simulation.go:222-234 | and the tick that finds the rest within one step ends on the target |
| `Patrol.NeverFurtherOutside` | engine/internal/engine/simulation.go:202-234 | over any run neither coordinate gets further outside the rectangle |
| `Patrol.StaysInRectangle` | engine/internal/engine/simulation.go:202-234 | once inside its rectangle a patrol stays inside for the rest of the run |
| `Patrol.NeverOvershoots` | engine/internal/engine/simulation.go:224-234 | a step ends between its start and its target, in any zone |
| `Patrol.JitterNeverAccumulates` | engine/internal/engine/simulation.go:236-249 | jitter never changes where the patrol is, and each point sent is within 0.000005 degrees of there |
| `RoutingRegistry.NormalizesExactly` | engine/internal/routing/registry.go:159-168 | a name is Google's or Mapbox's if and only if it is theirs in any letter case with any white space around it; every other name is OSRM's |
| `RoutingRegistry.NormalizePriority` | engine/internal/routing/registry.go:170-187 | the loop with its seen map gives the specified order |
| `RoutingRegistry.NormalizedIsRanked` | engine/internal/routing/registry.go:170-187 | that order holds each provider once, the listed ones by first occurrence and the rest after them in the default order |
| `RoutingRegistry.RankedIsUnique` | engine/internal/routing/registry.go:170-187 | no other order does |
| `RoutingRegistry.NormalizingTwice` | engine/internal/routing/registry.go:170-187 | normalizing is idempotent |
| `RoutingRegistry.ProviderOrder` | engine/internal/routing/registry.go:121-138 | the loop gives the order providers are asked in |
| `RoutingRegistry.OrderIsPreference` | engine/internal/routing/registry.go:121-138 | the manual choice first and the rest in the normal order, each provider once |
| `RoutingRegistry.Route` | engine/internal/routing/registry.go:45-74 | the answer is the earliest available provider's that is not empty; there is none if and only if every available provider fails or is empty; the first asked is the first available |
| `RoutingRegistry.ActiveProvider` | engine/internal/routing/registry.go:86-119 | the advertised provider is the first that a route asks, and OSRM when none is available |
| `RoutingRegistry.FirstAsked` | engine/internal/routing/registry.go:96-109 | the branches of the status and the order of a route agree for every configuration |

## Left out

- Peer discovery and configuration changes: the cluster's membership is fixed; a node's peers are all the other nodes.
- Takeover messages that no node announced: a message in flight comes from a granted takeover.
- Request authorization and JSON decoding in the cluster handlers: a message reaches its handler as values or not at all.
- Overflow of the 64-bit epoch: epochs are at most the number of takeovers, so 2^63 takeovers would be needed; a forged epoch is not part of this model.
- `HealthRetry.AttemptRate`: counts the retries of a tunnel that is down; the restart after the daemon of an active tunnel is gone, in the same loop, is not one of them, because it belongs to the health probes.
- `Patrol.Patroller.Step`: takes the target of a circular zone as an input, because its trigonometry is not modelled.
- `TunnelState.Engine.StartTunnel`: the method states a call with at most one switch announcing itself during it and no other writer; every interleaving is in `TunnelCalls` and `TunnelSafety`.
- `TunnelState.Engine.SwitchDriver`: the method states a call that gets the lock before another switch announces itself; every interleaving is in `TunnelCalls` and `TunnelSafety`.
- Driver internals: a stopped driver has no tunnel and a failed start leaves none running.
- Status fields other than state, active flag and device description, and all events and logs.
- Generations wrap at 2^64 in the code; here they are unbounded.
- Floating point: tokens, coordinates, distances and fractions are reals, and rounding is not modelled.
- Trigonometry: the distance is any non-negative number, and the targets of a circular patrol are inputs.
- The route simulation loop and the jitter carried over when a patrol is started again from the last injected point.
- The client side of the hub: what a client reads from its queue, writes to the queue by other goroutines, and the buffer size; a broadcast is told which queues have room.
- The hub's counters wrap at 2^64, and a snapshot may fall between the two additions for one message; here they are unbounded and a snapshot comes between events.
- A write that fails half-way, the content of a file changing between its time and its content being read, and file systems with coarse times, in the record sync.
- The initial pull of records is the receipt of a list; whether it happens is not modelled.
- Health probes and re-resolution of an active tunnel.
- The target of the anti-drift shield: a report says whether there is one and how far it is.
- Full Unicode lower-casing of provider names: only ASCII letters are folded, which decides the same names.
- Provider requests, profiles and error texts: an answer is a list of points or a failure.
- Command-line tools, applications, HTTP serving, pairing codes, settings and log filtering.
