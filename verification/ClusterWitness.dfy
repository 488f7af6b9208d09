/** Runs in which a property the election looks like it has fails. A cluster elects
    nobody by itself, so each of these runs of three fresh managers has one call of
    `Takeover` from outside the program, the one that makes node 2 master at the
    start; every later takeover is that of a health check that found its master dead,
    after a round of its own. */
module ClusterWitness {
  import opened Wrappers
  import opened ClusterNode
  import opened ClusterNet
  import opened ClusterEpochs
  import opened ClusterSplitBrain
  import opened ClusterTicks

  /** Reached by fresh managers with that many calls from outside. */
  ghost predicate Reachable(t: Cluster, calls: nat) {
    exists s, ms :: ReachedBy(s, ms, t, calls)
  }

  ghost predicate ReachedBy(s: Cluster, ms: seq<Move>, t: Cluster, calls: nat) {
    Started(s) && Ticking(s) && Ticks(s, ms) && Later(s, ms) == t && Outsiders(ms) == calls
  }

  lemma StartIsReachable(t: Cluster)
    requires Started(t)
    ensures Ticking(t) && Reachable(t, 0)
  {
    hide Shaped;
    assert ReachedBy(t, [], t, 0);
  }

  lemma Step(t: Cluster, m: Move, calls: nat)
    requires Ticking(t) && Reachable(t, calls) && Possible(t, m)
    ensures Ticking(Next(t, m)) && Reachable(Next(t, m), calls + if m.Outside? then 1 else 0)
  {
    hide Ticking, Possible, Next, Started;
    var s, ms :| ReachedBy(s, ms, t, calls);
    OneTick(t, m);
    TicksJoin(s, ms, [m]);
    assert ReachedBy(s, ms + [m], Next(t, m), calls + if m.Outside? then 1 else 0);
  }

  /** What holds of the network in every run holds here. */
  lemma ReachableIsBounded(t: Cluster, calls: nat)
    requires Reachable(t, calls)
    ensures Bounded(t.net)
  {
    hide Started, Ticking, Ticks, Later, Bounded, Sourced, Ordered;
    var s, ms :| ReachedBy(s, ms, t, calls);
    TicksAreRuns(s, ms);
    StartedIsInit(s);
    InitHoldsInv(s.net);
    RunKeepsInv(s.net, Trace(ms));
  }

  lemma StartedIsInit(s: Cluster)
    requires Started(s)
    ensures Init(s.net)
  {
  }

  lemma MovedTwice(t: Cluster, u: Cluster, v: Cluster, i: Id)
    requires Moved(t, u, i) && Moved(u, v, i)
    ensures Moved(t, v, i)
  {
    TickingIsShaped(t);
    TickingIsShaped(u);
    TickingIsShaped(v);
    hide Shaped, Ticking;
  }

  // ---------------------------------------------------------------------------
  // A heartbeat in which one of two peers answers
  // ---------------------------------------------------------------------------

  /** `n` after a round in which `j` answers and `k` does not. */
  function Heard(n: Node, j: Id, reply: PingReply, k: Id, now: int): Node
    requires j in n.peers && k in n.peers
  {
    FinishRound(RecordFailure(RecordReply(n, j, reply), k), Observe(EmptyScan, j, reply), now)
  }

  lemma TwoToAsk(n: Node, j: Id, k: Id)
    requires n.peers.Keys == {j, k} && j != k
    ensures Lists([j, k], n) && [j, k][1..] == [k] && [k][1..] == []
  {
    assert forall p :: p in [j, k] <==> p in {j, k};
  }

  /** One heartbeat up to its health check. */
  lemma Heartbeat(t: Cluster, i: Id, j: Id, k: Id, now: int, deadAfter: int, calls: nat) returns (u: Cluster)
    requires Ticking(t) && Reachable(t, calls) && t.net.split.None? && j != k
    requires i in t.net.nodes && j in t.net.nodes && t.net.nodes[i].peers.Keys == {j, k}
    requires t.net.rounds[i] == Resting && t.phases[i] == Idle
    ensures Moved(t, u, i) && Reachable(u, calls)
    ensures u.net.nodes[i] == Heard(t.net.nodes[i], j, Answer(t.net.nodes[j]), k, now)
    ensures u.net.rounds[i] == Resting
    ensures u.phases[i] == if MasterLooksDead(u.net.nodes[i], now, deadAfter) then Firing else Idle
  {
    hide Reachable, Possible, Next, FinishRound, RecordReply, RecordFailure, Observe, Answer, MasterLooksDead, Lists;
    var n := t.net.nodes[i];
    TwoToAsk(n, j, k);
    BeginEffect(t, i, [j, k]);
    Step(t, Do(BeginRound(i, [j, k])), calls);
    var a := Next(t, Do(BeginRound(i, [j, k])));
    hide Shaped, Ticking;
    FetchEffect(a, i, j);
    Step(a, Do(Fetch(i)), calls);
    var b := Next(a, Do(Fetch(i)));
    RecordEffect(b, i);
    Step(b, Do(Record(i)), calls);
    var c := Next(b, Do(Record(i)));
    SkipEffect(c, i, k);
    Step(c, Do(Fail(i)), calls);
    var d := Next(c, Do(Fail(i)));
    EndEffect(d, i, now);
    Step(d, Do(EndRound(i, now)), calls);
    var e := Next(d, Do(EndRound(i, now)));
    LookEffect(e, i, now, deadAfter);
    Step(e, Look(i, now, deadAfter), calls);
    u := Next(e, Look(i, now, deadAfter));
    PeersKept(n, j, Answer(t.net.nodes[j]), k);
    hide Moved;
    MovedTwice(t, a, b, i);
    MovedTwice(t, b, c, i);
    MovedTwice(t, c, d, i);
    MovedTwice(t, d, e, i);
    MovedTwice(t, e, u, i);
    assert Moved(t, u, i);
  }

  lemma PeersKept(n: Node, j: Id, reply: PingReply, k: Id)
    requires n.peers.Keys == {j, k}
    ensures RecordReply(n, j, reply).peers.Keys == {j, k}
  {
  }

  /** A node whose master was announced to it, by a message heard at time zero. */
  predicate Follower(n: Node, epoch: int, a: Id, b: Id) {
    && n.mode == Auto && n.role == Slave && n.epoch == epoch && n.currentMaster == Me && n.lastMasterSeen == 0
    && n.peers.Keys == {a, b}
  }

  /** Hearing a slave changes nothing but the marks, and gives a quorum of three. */
  lemma HearingASlave(n: Node, j: Id, epoch: int, k: Id, now: int)
    requires n.peers.Keys == {j, k} && j != k && !n.currentMaster.Peer?
    ensures var h := Heard(n, j, PingReply(Slave, epoch), k, now);
            && h == n.(peers := h.peers) && h.peers.Keys == n.peers.Keys && HasQuorum(h)
  {
    var h := Heard(n, j, PingReply(Slave, epoch), k, now);
    assert h.peers.Keys == {j, k};
    assert |h.peers| == |h.peers.Keys| == 2;
    assert Online(h) == {j};
  }

  /** Hearing a master makes the node follow it, whatever its own role. */
  lemma HearingAMaster(n: Node, j: Id, epoch: int, k: Id, now: int)
    requires n.peers.Keys == {j, k} && j != k && epoch >= 0
    ensures var h := Heard(n, j, PingReply(Master, epoch), k, now);
            h.role == n.role && h.currentMaster == Peer(j)
  {
  }

  // ---------------------------------------------------------------------------
  // Three nodes
  // ---------------------------------------------------------------------------

  /** A fresh automatic manager that lists `a` and `b`. */
  function Fresh(a: Id, b: Id): Node {
    var unseen := PeerRecord(false, Unknown, 0);
    Node(Auto, Slave, 0, NoMaster, 0, false, map[a := unseen, b := unseen])
  }

  function Trio(n0: Node, n1: Node, n2: Node): Net {
    Net(map[0 := n0, 1 := n1, 2 := n2], map[0 := Resting, 1 := Resting, 2 := Resting], {}, None, [])
  }

  function Start(): Net {
    Trio(Fresh(1, 2), Fresh(0, 2), Fresh(0, 1))
  }

  /** Three resting nodes that list each other. */
  predicate IsTrio(s: Net) {
    && s.nodes.Keys == {0, 1, 2} && s.rounds.Keys == {0, 1, 2}
    && s.nodes[0].peers.Keys == {1, 2} && s.nodes[1].peers.Keys == {0, 2} && s.nodes[2].peers.Keys == {0, 1}
    && s.rounds[0] == s.rounds[1] == s.rounds[2] == Resting
    && s.messages == {} && s.split == None && s.claims == []
  }

  lemma TrioIsShaped(s: Net)
    requires IsTrio(s)
    ensures Shaped(s)
  {
    forall i | i in s.nodes
      ensures s.nodes[i].peers.Keys == s.nodes.Keys - {i} && ShapedRound(s.nodes[i], s.rounds[i])
    {
      assert i in s.nodes.Keys;
      assert i == 0 || i == 1 || i == 2;
      assert {0, 1, 2} - {0} == {1, 2} && {0, 1, 2} - {1} == {0, 2} && {0, 1, 2} - {2} == {0, 1};
    }
  }

  lemma TrioIsInit(n0: Node, n1: Node, n2: Node)
    requires IsNew(n0) && IsNew(n1) && IsNew(n2)
    requires n0.peers.Keys == {1, 2} && n1.peers.Keys == {0, 2} && n2.peers.Keys == {0, 1}
    ensures Trio(n0, n1, n2).nodes.Keys == {0, 1, 2}
    ensures Init(Trio(n0, n1, n2))
  {
    var s := Trio(n0, n1, n2);
    assert IsTrio(s) && s.nodes[0] == n0 && s.nodes[1] == n1 && s.nodes[2] == n2;
    TrioIsShaped(s);
    TrioStartsFresh(s);
  }

  lemma TrioStartsFresh(s: Net)
    requires IsTrio(s) && Shaped(s) && IsNew(s.nodes[0]) && IsNew(s.nodes[1]) && IsNew(s.nodes[2])
    ensures Init(s)
  {
    hide Shaped;
    forall i | i in s.nodes ensures IsNew(s.nodes[i]) && s.rounds[i] == Resting {
      assert i in s.nodes.Keys;
      assert i == 0 || i == 1 || i == 2;
    }
  }

  lemma StartIsInit()
    ensures Init(Start()) && IsTrio(Start()) && Shaped(Start())
    ensures Start().nodes[0] == Fresh(1, 2) && Start().nodes[1] == Fresh(0, 2) && Start().nodes[2] == Fresh(0, 1)
  {
    FreshIsInitial(1, 2);
    FreshIsInitial(0, 2);
    FreshIsInitial(0, 1);
    hide Fresh, Init, IsNew;
    TrioIsInit(Fresh(1, 2), Fresh(0, 2), Fresh(0, 1));
    TrioIsShaped(Start());
  }

  lemma FreshIsInitial(a: Id, b: Id)
    ensures IsNew(Fresh(a, b)) && Fresh(a, b).peers.Keys == {a, b}
  {
  }

  /** Nodes 0 and 1 have both found the master dead and are about to take over. */
  ghost predicate Poised(t: Cluster) {
    && Ticking(t) && t.net.nodes.Keys == {0, 1, 2}
    && t.phases[0] == Firing && t.phases[1] == Firing
    && Follower(t.net.nodes[0], 1, 1, 2) && HasQuorum(t.net.nodes[0])
    && Follower(t.net.nodes[1], 1, 0, 2) && HasQuorum(t.net.nodes[1])
    && t.net.nodes[2].epoch == 1
  }

  /** Node 2 has been master and stepped down; 0 and 1 have heard of its takeover only. */
  ghost predicate Abandoned(t: Cluster) {
    && Ticking(t) && t.net.nodes.Keys == {0, 1, 2} && t.net.split.None?
    && t.phases[0] == Idle && t.phases[1] == Idle && t.net.rounds[0] == Resting && t.net.rounds[1] == Resting
    && Follower(t.net.nodes[0], 1, 1, 2) && Follower(t.net.nodes[1], 1, 0, 2)
    && t.net.nodes[2].epoch == 1
  }

  lemma Begin() returns (t: Cluster)
    ensures Ticking(t) && Reachable(t, 0) && t.net == Start() && forall i :: i in t.phases ==> t.phases[i] == Idle
  {
    StartIsInit();
    t := Cluster(Start(), map i | i in Start().nodes.Keys :: Idle);
    hide Start, Init, Shaped;
    StartIsReachable(t);
  }

  /** Node 2 has heard node 0 once. */
  lemma Greet() returns (t: Cluster)
    ensures Ticking(t) && Reachable(t, 0) && t.net.nodes.Keys == {0, 1, 2} && t.net.split.None?
    ensures t.phases[0] == Idle && t.phases[1] == Idle && t.net.rounds[0] == Resting && t.net.rounds[1] == Resting
    ensures t.net.nodes[0] == Fresh(1, 2) && t.net.nodes[1] == Fresh(0, 2)
    ensures var n := t.net.nodes[2];
            n.role == Slave && n.epoch == 0 && n.peers.Keys == {0, 1} && HasQuorum(n)
  {
    StartIsInit();
    FreshAnswers(1, 2);
    FreshFields(0, 1);
    hide Reachable, Start, Init, IsNew, Fresh, Heard, Answer, HasQuorum, MasterLooksDead, Shaped;
    var s := Begin();
    assert s.net.nodes[2].peers.Keys == {0, 1};
    assert s.phases.Keys == {0, 1, 2};
    t := Heartbeat(s, 2, 0, 1, 0, 0, 0);
    HearingASlave(Fresh(0, 1), 0, 0, 1, 0);
  }

  /** The one call from outside: node 2 takes over. */
  lemma MakeMaster() returns (t: Cluster)
    ensures Ticking(t) && Reachable(t, 1) && t.net.nodes.Keys == {0, 1, 2} && t.net.split.None?
    ensures t.phases[0] == Idle && t.phases[1] == Idle && t.net.rounds[0] == Resting && t.net.rounds[1] == Resting
    ensures t.net.nodes[0] == Fresh(1, 2) && t.net.nodes[1] == Fresh(0, 2)
    ensures t.net.nodes[2].role == Master && t.net.nodes[2].epoch == 1
    ensures Message(2, 0, 1) in t.net.messages && Message(2, 1, 1) in t.net.messages
  {
    hide Reachable, Shaped, Fresh, HasQuorum, Possible, Next, Promote;
    var h := Greet();
    TakeoverEffect(h, Outside(2, 0), 2, 0);
    Step(h, Outside(2, 0), 0);
    t := Next(h, Outside(2, 0));
    Announces(2, h.net.nodes[2], 0, 1);
    PromotionOf(h.net.nodes[2], 0);
  }

  lemma PromotionOf(n: Node, now: int)
    requires HasQuorum(n)
    ensures Promote(n, now) == n.(epoch := n.epoch + 1, role := Master, currentMaster := Me, lastMasterSeen := now)
  {
  }

  lemma FreshAnswers(a: Id, b: Id)
    ensures Answer(Fresh(a, b)) == PingReply(Slave, 0)
  {
  }

  lemma FreshFields(a: Id, b: Id)
    ensures var n := Fresh(a, b); n.mode == Auto && n.role == Slave && n.epoch == 0 && n.currentMaster == NoMaster
    ensures Fresh(a, b).peers.Keys == {a, b}
  {
  }

  lemma Announces(i: Id, n: Node, a: Id, b: Id)
    requires n.peers.Keys == {a, b}
    ensures Message(i, a, n.epoch + 1) in Announcement(i, n) && Message(i, b, n.epoch + 1) in Announcement(i, n)
  {
    assert a in n.peers.Keys && b in n.peers.Keys;
  }

  lemma Abandon() returns (t: Cluster)
    ensures Abandoned(t) && Reachable(t, 1)
  {
    hide Reachable, Shaped, Fresh, Possible, Next;
    FreshFields(1, 2);
    FreshFields(0, 2);
    var s := MakeMaster();
    var m0, m1 := Message(2, 0, 1), Message(2, 1, 1);
    HearEffect(s, m0, 0);
    Step(s, Do(Hear(m0, 0)), 1);
    var a := Next(s, Do(Hear(m0, 0)));
    HearEffect(a, m1, 0);
    Step(a, Do(Hear(m1, 0)), 1);
    var b := Next(a, Do(Hear(m1, 0)));
    ReleaseEffect(b, 2);
    Step(b, Do(ClusterNet.Release(2)), 1);
    t := Next(b, Do(ClusterNet.Release(2)));
  }

  /** Each of 0 and 1 hears the other, who is a slave, and not node 2. */
  lemma Wait(t: Cluster, deadAfter: int) returns (u: Cluster)
    requires Abandoned(t) && Reachable(t, 1) && deadAfter >= 0
    ensures Poised(u) && Reachable(u, 1) && u.net.split.None?
    ensures u.net.rounds[0] == Resting && u.net.rounds[1] == Resting
  {
    hide Reachable, Shaped, Heard, HasQuorum;
    var now := deadAfter + 1;
    var a := Heartbeat(t, 0, 1, 2, now, deadAfter, 1);
    assert Answer(t.net.nodes[1]) == PingReply(Slave, 1);
    HearingASlave(t.net.nodes[0], 1, 1, 2, now);
    u := Heartbeat(a, 1, 0, 2, now, deadAfter, 1);
    assert Answer(a.net.nodes[0]) == PingReply(Slave, 1);
    HearingASlave(a.net.nodes[1], 0, 1, 2, now);
  }

  // ---------------------------------------------------------------------------
  // Two masters in one epoch
  // ---------------------------------------------------------------------------

  /** Nodes 0 and 1 are both master of epoch 2 and each refuses the other's claim. */
  ghost predicate BothMasters(t: Cluster) {
    && IsMaster(t.net, 0, 2) && IsMaster(t.net, 1, 2)
    && Message(0, 1, 2) in t.net.messages && Accept(t.net.nodes[1], Me, 2, 0) == t.net.nodes[1]
    && Message(1, 0, 2) in t.net.messages && Accept(t.net.nodes[0], Me, 2, 0) == t.net.nodes[0]
  }

  /** Both takeovers are granted, split or not. */
  lemma BothClaim(t: Cluster) returns (u: Cluster)
    requires Poised(t) && Reachable(t, 1) && t.net.rounds[0] == Resting && t.net.rounds[1] == Resting
    ensures Ticking(u) && Reachable(u, 1) && BothMasters(u) && u.net.split == t.net.split
    ensures u.net.nodes.Keys == {0, 1, 2} && u.net.nodes[2] == t.net.nodes[2]
    ensures u.net.nodes[0].peers.Keys == {1, 2} && u.net.rounds[0] == Resting && u.phases[0] == Idle
  {
    hide Reachable, Shaped, HasQuorum, Possible, Next, Promote;
    var m0, m1 := Do(TakeOver(0, 0)), Do(TakeOver(1, 0));
    TakeoverEffect(t, m0, 0, 0);
    Step(t, m0, 1);
    var v := Next(t, m0);
    PromotionOf(t.net.nodes[0], 0);
    Announces(0, t.net.nodes[0], 1, 2);
    TakeoverEffect(v, m1, 1, 0);
    Step(v, m1, 1);
    u := Next(v, m1);
    PromotionOf(v.net.nodes[1], 0);
    Announces(1, v.net.nodes[1], 0, 2);
  }

  lemma ThreeNodes(s: Net)
    requires s.nodes.Keys == {0, 1, 2}
    ensures |s.nodes| == 3
  {
  }

  /** "At most one master per epoch" fails: two health checks that both found the same
      master dead claim epoch 2, and neither is undone when its message arrives. */
  lemma TwoMastersInOneEpoch()
    ensures exists u :: Reachable(u, 1) && |u.net.nodes| == 3 && u.net.split.None? && BothMasters(u)
  {
    hide *;
    var s := Abandon();
    var t := Wait(s, 0);
    var u := BothClaim(t);
    ThreeNodes(u.net);
  }

  /** And they hold the highest epoch there is, so that only another takeover or a
      release can end it. */
  lemma SplitBrainIsReachable()
    ensures exists u :: Reachable(u, 1) && |u.net.nodes| == 3 && Deadlocked(u.net, 0, 1, 2)
  {
    hide Reachable, Ticking, Bounded, HasQuorum;
    var s := Abandon();
    var t := Wait(s, 0);
    var u := BothClaim(t);
    ThreeNodes(u.net);
    ReachableIsBounded(u, 1);
    assert Below(u.net, 2);
    assert Deadlocked(u.net, 0, 1, 2);
  }

  /** A split between the health checks and their takeovers: the marks of the rounds
      just completed give both halves a quorum, though one half is a single node. */
  lemma StaleMarksElectBothHalves()
    ensures exists u :: Reachable(u, 1) && |u.net.nodes| == 3 && u.net.split == Some({0}) && BothMasters(u)
  {
    hide Reachable, BothMasters, Ticking, Shaped, Next, Possible, HasQuorum;
    var s := Abandon();
    var t := Wait(s, 0);
    SplitEffect(t, {0});
    Step(t, Do(Split({0})), 1);
    var u := BothClaim(Next(t, Do(Split({0}))));
    ThreeNodes(u.net);
  }

  /** "A master names itself" fails: once 0 and 1 are both masters, the next heartbeat
      of node 0 makes it adopt node 1 while it stays master. */
  lemma MasterCanNameAnother()
    ensures exists v :: Reachable(v, 1) && |v.net.nodes| == 3
              && 0 in v.net.nodes && v.net.nodes[0].role == Master && v.net.nodes[0].currentMaster == Peer(1)
  {
    hide Reachable, Shaped, Heard, HasQuorum;
    var s := Abandon();
    var t := Wait(s, 0);
    var u := BothClaim(t);
    var v := Heartbeat(u, 0, 1, 2, 0, 0, 1);
    assert Answer(u.net.nodes[1]) == PingReply(Master, 2);
    HearingAMaster(u.net.nodes[0], 1, 2, 2, 0);
    ThreeNodes(v.net);
  }

  // ---------------------------------------------------------------------------
  // Two nodes
  // ---------------------------------------------------------------------------

  /** A node of a cluster of two that was told of a takeover long enough ago. */
  ghost predicate Waiting(t: Cluster, i: Id, j: Id) {
    && Ticking(t) && t.net.nodes.Keys == {i, j} && i != j
    && t.net.rounds[i] == Resting && t.phases[i] == Idle
    && t.net.nodes[i].mode == Auto && t.net.nodes[i].role == Slave && t.net.nodes[i].currentMaster == Me
  }

  /** One heartbeat of such a node, in which the other does not answer, makes it master. */
  lemma SilentHeartbeat(t: Cluster, i: Id, j: Id, deadAfter: int) returns (ms: seq<Move>, u: Cluster)
    requires Waiting(t, i, j)
    ensures Ticks(t, ms) && Later(t, ms) == u && Outsiders(ms) == 0
    ensures Ticking(u) && u.net.nodes.Keys == {i, j} && u.net.split == t.net.split
    ensures IsMaster(u.net, i, t.net.nodes[i].epoch + 1)
    ensures u.net.nodes[j] == t.net.nodes[j] && u.net.rounds[j] == t.net.rounds[j] && u.phases[j] == t.phases[j]
  {
    hide Shaped, HasQuorum, Possible, Next, Ticks, Later, Outsiders, Promote;
    var n := t.net.nodes[i];
    var now := n.lastMasterSeen + deadAfter + 1;
    OnlyPeer(t, i, j);
    var m1, m2, m3 := Do(BeginRound(i, [j])), Do(Fail(i)), Do(EndRound(i, now));
    var m4, m5 := Look(i, now, deadAfter), Do(TakeOver(i, now));
    hide Lists;
    BeginEffect(t, i, [j]);
    var a := Next(t, m1);
    assert [j][1..] == [];
    SkipEffect(a, i, j);
    var b := Next(a, m2);
    EndEffect(b, i, now);
    var c := Next(b, m3);
    LookEffect(c, i, now, deadAfter);
    var d := Next(c, m4);
    assert c.net.nodes[i] == RecordFailure(n, j) && d.phases[i] == Firing;
    QuorumOfTwo(n, j);
    TakeoverEffect(d, m5, i, now);
    u := Next(d, m5);
    PromotionOf(d.net.nodes[i], now);
    ms := FiveTicks(t, m1, m2, m3, m4, m5);
  }

  lemma FiveTicks(t: Cluster, m1: Move, m2: Move, m3: Move, m4: Move, m5: Move) returns (ms: seq<Move>)
    requires !m1.Outside? && !m2.Outside? && !m3.Outside? && !m4.Outside? && !m5.Outside?
    requires Ticking(t) && Possible(t, m1) && Ticking(Next(t, m1)) && Possible(Next(t, m1), m2)
    requires var b := Next(Next(t, m1), m2); Ticking(b) && Possible(b, m3)
    requires var c := Next(Next(Next(t, m1), m2), m3); Ticking(c) && Possible(c, m4)
    requires var d := Next(Next(Next(Next(t, m1), m2), m3), m4); Ticking(d) && Possible(d, m5)
    ensures Ticks(t, ms) && Later(t, ms) == Next(Next(Next(Next(Next(t, m1), m2), m3), m4), m5) && Outsiders(ms) == 0
  {
    hide Ticking, Possible, Next, Ticks, Later, Outsiders;
    var a := Next(t, m1);
    var b := Next(a, m2);
    var c := Next(b, m3);
    var d := Next(c, m4);
    OneTick(d, m5);
    OneMoreMove(c, m4, [m5]);
    OneMoreMove(b, m3, [m4] + [m5]);
    OneMoreMove(a, m2, [m3] + ([m4] + [m5]));
    OneMoreMove(t, m1, [m2] + ([m3] + ([m4] + [m5])));
    ms := [m1] + ([m2] + ([m3] + ([m4] + [m5])));
  }

  lemma OnlyPeer(t: Cluster, i: Id, j: Id)
    requires Ticking(t) && t.net.nodes.Keys == {i, j} && i != j
    ensures t.net.nodes[i].peers.Keys == {j} && Lists([j], t.net.nodes[i])
  {
    hide ShapedRound;
  }

  lemma QuorumOfTwo(n: Node, j: Id)
    requires n.peers.Keys == {j}
    ensures var m := RecordFailure(n, j); HasQuorum(m) && m == n.(peers := m.peers)
  {
    var m := RecordFailure(n, j);
    assert m.peers.Keys == {j};
    assert |m.peers| == |m.peers.Keys| == 1;
  }

  /** Two nodes have no quorum rule: from every state of a cluster of two, split or not,
      in which both were told of a takeover, their own health checks make both master
      without any call from outside, and of the same epoch if they were level. */
  lemma TwoNodesBothTakeOver(t: Cluster, i: Id, j: Id, deadAfter: int)
    requires Waiting(t, i, j) && Waiting(t, j, i)
    ensures exists ms :: BothRule(t, ms, i, j)
  {
    hide Ticking, Ticks, Later, Outsiders;
    var ms, u := SilentHeartbeat(t, i, j, deadAfter);
    var ns, v := SilentHeartbeat(u, j, i, deadAfter);
    TicksJoin(t, ms, ns);
    assert BothRule(t, ms + ns, i, j);
  }

  ghost predicate BothRule(t: Cluster, ms: seq<Move>, i: Id, j: Id)
    requires i in t.net.nodes && j in t.net.nodes
  {
    && Ticking(t) && Ticks(t, ms) && Outsiders(ms) == 0
    && var s := Later(t, ms).net;
       && s.split == t.net.split
       && IsMaster(s, i, t.net.nodes[i].epoch + 1) && IsMaster(s, j, t.net.nodes[j].epoch + 1)
  }
}
