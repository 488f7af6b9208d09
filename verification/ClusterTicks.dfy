/** The cluster as the program runs it. `Takeover` is exported but has one caller, the
    health check; that check runs once after each ping round of its node, and reads the
    state in one critical section and takes over in another. A call from outside the
    program is a move of its own here, so that each result says whether it needs one. */
module ClusterTicks {
  import opened Wrappers
  import opened ClusterNode
  import opened ClusterNet
  import opened ClusterEpochs
  import opened ClusterPartition

  /** Where a node's heartbeat is: a round may begin or is on; its round is over and
      the health check is due; or the check found the master dead. */
  datatype Phase = Idle | Due | Firing

  datatype Cluster = Cluster(net: Net, phases: map<Id, Phase>)

  datatype Move =
    | Do(a: Action)
    | Look(i: Id, now: int, deadAfter: int)
    | Outside(i: Id, now: int)

  /** Between the end of its round and the end of its check a node is in no round. */
  ghost predicate Ticking(t: Cluster) {
    && Shaped(t.net) && t.phases.Keys == t.net.nodes.Keys
    && (forall i :: i in t.phases && t.phases[i] != Idle ==> t.net.rounds[i].Resting?)
  }

  ghost predicate Possible(t: Cluster, m: Move)
    requires Ticking(t)
  {
    match m
    case Do(a) =>
      && Enabled(t.net, a)
      && (a.BeginRound? ==> t.phases[a.i] == Idle)
      && (a.TakeOver? ==> t.phases[a.i] == Firing)
    case Look(i, _, _) => i in t.phases && t.phases[i] == Due
    case Outside(i, _) => i in t.phases
  }

  /** What a move does to the network: a look changes nothing. */
  function Acting(m: Move): Option<Action> {
    match m
    case Do(a) => Some(a)
    case Look(_, _, _) => None
    case Outside(i, now) => Some(TakeOver(i, now))
  }

  ghost function NextPhases(t: Cluster, m: Move): map<Id, Phase>
    requires Ticking(t) && Possible(t, m)
  {
    match m
    case Do(a) =>
      if a.EndRound? then t.phases[a.i := Due]
      else if a.TakeOver? then t.phases[a.i := Idle]
      else t.phases
    case Look(i, now, deadAfter) =>
      t.phases[i := if MasterLooksDead(t.net.nodes[i], now, deadAfter) then Firing else Idle]
    case Outside(_, _) => t.phases
  }

  ghost function Next(t: Cluster, m: Move): Cluster
    requires Ticking(t) && Possible(t, m)
  {
    Cluster(if Acting(m).Some? then Apply(t.net, Acting(m).value) else t.net, NextPhases(t, m))
  }

  lemma ActingIsEnabled(t: Cluster, m: Move)
    requires Ticking(t) && Possible(t, m) && Acting(m).Some?
    ensures Enabled(t.net, Acting(m).value)
  {
  }

  lemma MoveKeepsTicking(t: Cluster, m: Move)
    requires Ticking(t) && Possible(t, m)
    ensures Ticking(Next(t, m)) && Next(t, m).net.nodes.Keys == t.net.nodes.Keys
  {
    hide Apply, NextNode, Shaped;
    if Acting(m).Some? {
      var a := Acting(m).value;
      ActingIsEnabled(t, m);
      StepKeepsShape(t.net, a);
      RoundsOfOthers(t, m);
    }
  }

  /** A node that is not in its health check stays in its round unless it ends it. */
  lemma RoundsOfOthers(t: Cluster, m: Move)
    requires Ticking(t) && Possible(t, m) && Acting(m).Some? && Enabled(t.net, Acting(m).value)
    ensures var u := Next(t, m);
            && u.net.rounds.Keys == t.net.rounds.Keys
            && forall i :: i in u.phases && u.phases[i] != Idle ==> i in u.net.rounds && u.net.rounds[i].Resting?
  {
    hide Apply, NextNode, ShapedRound;
    var a := Acting(m).value;
    if a.Split? {
      SplitChangesRounds(t.net, a);
    } else {
      EffectOnNodes(t.net, a);
    }
  }

  lemma SplitChangesRounds(s: Net, a: Action)
    requires Shaped(s) && Enabled(s, a) && a.Split?
    ensures Apply(s, a).rounds == s.rounds
  {
  }

  // ---------------------------------------------------------------------------
  // Runs
  // ---------------------------------------------------------------------------

  ghost predicate Ticks(t: Cluster, ms: seq<Move>)
    requires Ticking(t)
    decreases |ms|
  {
    ms == [] || (Possible(t, ms[0]) && (MoveKeepsTicking(t, ms[0]); Ticks(Next(t, ms[0]), ms[1..])))
  }

  ghost function Later(t: Cluster, ms: seq<Move>): (u: Cluster)
    requires Ticking(t) && Ticks(t, ms)
    ensures Ticking(u) && u.net.nodes.Keys == t.net.nodes.Keys
    decreases |ms|
  {
    if ms == [] then t else (MoveKeepsTicking(t, ms[0]); Later(Next(t, ms[0]), ms[1..]))
  }

  /** Fresh managers, none of them in a heartbeat. */
  ghost predicate Started(t: Cluster) {
    Init(t.net) && t.phases.Keys == t.net.nodes.Keys && forall i :: i in t.phases ==> t.phases[i] == Idle
  }

  /** How many calls from outside there are. */
  function Outsiders(ms: seq<Move>): nat {
    if ms == [] then 0 else (if ms[0].Outside? then 1 else 0) + Outsiders(ms[1..])
  }

  function Trace(ms: seq<Move>): seq<Action> {
    if ms == [] then []
    else if Acting(ms[0]).Some? then [Acting(ms[0]).value] + Trace(ms[1..])
    else Trace(ms[1..])
  }

  lemma TicksHead(t: Cluster, ms: seq<Move>)
    requires Ticking(t) && Ticks(t, ms) && ms != []
    ensures Possible(t, ms[0]) && Ticking(Next(t, ms[0]))
    ensures Next(t, ms[0]).net.nodes.Keys == t.net.nodes.Keys
    ensures Ticks(Next(t, ms[0]), ms[1..]) && Later(t, ms) == Later(Next(t, ms[0]), ms[1..])
  {
    hide Ticking, Possible, Next;
    MoveKeepsTicking(t, ms[0]);
  }

  lemma TickingIsShaped(t: Cluster)
    requires Ticking(t)
    ensures Shaped(t.net) && t.phases.Keys == t.net.nodes.Keys
  {
  }

  /** Every run of the program is a run of the network, so what holds of all those
      holds of these: partition safety, provenance of epochs, one master exactly. */
  lemma {:induction false} TicksAreRuns(t: Cluster, ms: seq<Move>)
    requires Ticking(t) && Ticks(t, ms)
    ensures Shaped(t.net) && Runs(t.net, Trace(ms)) && After(t.net, Trace(ms)) == Later(t, ms).net
    decreases |ms|
  {
    TickingIsShaped(t);
    if ms == [] {
      EmptyRun(t.net);
    } else {
      TicksHead(t, ms);
      var u := Next(t, ms[0]);
      TicksAreRuns(u, ms[1..]);
      hide Ticking, Possible, Ticks, Later, Runs, After, NextPhases, Shaped, Enabled, Apply;
      if Acting(ms[0]).Some? {
        ActingIsEnabled(t, ms[0]);
        OneMoreAction(t.net, Acting(ms[0]).value, Trace(ms[1..]));
      }
    }
  }

  lemma {:induction false} TicksJoin(t: Cluster, ms: seq<Move>, ns: seq<Move>)
    requires Ticking(t) && Ticks(t, ms) && Ticks(Later(t, ms), ns)
    ensures Ticks(t, ms + ns) && Later(t, ms + ns) == Later(Later(t, ms), ns)
    ensures Outsiders(ms + ns) == Outsiders(ms) + Outsiders(ns)
    decreases |ms|
  {
    hide Ticking, Possible, Next;
    if ms == [] {
      assert ms + ns == ns;
    } else {
      TicksHead(t, ms);
      TicksJoin(Next(t, ms[0]), ms[1..], ns);
      assert ms + ns == [ms[0]] + (ms[1..] + ns);
      OneMoreMove(t, ms[0], ms[1..] + ns);
    }
  }

  lemma OneMoreMove(t: Cluster, m: Move, ms: seq<Move>)
    requires Ticking(t) && Possible(t, m) && Ticking(Next(t, m)) && Ticks(Next(t, m), ms)
    ensures Ticks(t, [m] + ms) && Later(t, [m] + ms) == Later(Next(t, m), ms)
    ensures Outsiders([m] + ms) == (if m.Outside? then 1 else 0) + Outsiders(ms)
  {
    hide Ticking, Possible, Next;
    assert ([m] + ms)[1..] == ms;
  }

  lemma OneTick(t: Cluster, m: Move)
    requires Ticking(t) && Possible(t, m)
    ensures Ticking(Next(t, m)) && Ticks(t, [m]) && Later(t, [m]) == Next(t, m)
    ensures Outsiders([m]) == if m.Outside? then 1 else 0
  {
    MoveKeepsTicking(t, m);
    hide Ticking, Possible, Next;
    assert [m][1..] == [];
  }

  /** `u` is `t` after an action of node `i`, or a look of it: everybody else is as before. */
  ghost predicate Moved(t: Cluster, u: Cluster, i: Id) {
    && Ticking(t) && Ticking(u) && u.net.nodes.Keys == t.net.nodes.Keys && u.net.split == t.net.split
    && t.net.messages <= u.net.messages
    && forall j :: j in t.net.nodes && j != i ==>
         u.net.nodes[j] == t.net.nodes[j] && u.net.rounds[j] == t.net.rounds[j] && u.phases[j] == t.phases[j]
  }

  /** What a move of one node leaves. */
  lemma Effect(t: Cluster, m: Move)
    requires Ticking(t) && Possible(t, m) && Acting(m).Some? && !Acting(m).value.Split?
    ensures Enabled(t.net, Acting(m).value)
    ensures var a, u := Acting(m).value, Next(t, m);
            && Moved(t, u, Actor(a)) && Actor(a) in t.net.nodes
            && u.net.nodes[Actor(a)] == NextNode(t.net, a) && u.net.rounds[Actor(a)] == NextRound(t.net, a)
            && u.phases == NextPhases(t, m)
            && (Grants(t.net, a) ==> Announcement(a.i, t.net.nodes[a.i]) <= u.net.messages)
  {
    hide Apply, NextNode, NextRound, Shaped, Enabled, Grants, Possible, NextPhases, Ticking, Moved, Announcement;
    var a := Acting(m).value;
    ActingIsEnabled(t, m);
    TickingIsShaped(t);
    EffectOnNodes(t.net, a);
    EffectOnMessages(t.net, a);
    OthersStay(t, m);
  }

  lemma OthersStay(t: Cluster, m: Move)
    requires Ticking(t) && Possible(t, m) && Acting(m).Some? && !Acting(m).value.Split?
    requires Enabled(t.net, Acting(m).value)
    ensures Moved(t, Next(t, m), Actor(Acting(m).value))
  {
    hide Apply, NextNode, NextRound, Shaped, Enabled, Grants, Possible, NextPhases, Ticking, Announcement;
    var a := Acting(m).value;
    TickingIsShaped(t);
    EffectOnNodes(t.net, a);
    EffectOnMessages(t.net, a);
    MoveKeepsTicking(t, m);
    TickingIsShaped(Next(t, m));
    PhasesOfOthers(t, m);
  }

  lemma PhasesOfOthers(t: Cluster, m: Move)
    requires Ticking(t) && Possible(t, m) && Acting(m).Some? && !Acting(m).value.Split?
    ensures forall j :: j in t.phases && j != Actor(Acting(m).value) ==>
              j in NextPhases(t, m) && NextPhases(t, m)[j] == t.phases[j]
  {
    hide Shaped, Enabled;
  }

  lemma EffectOnMessages(t: Net, a: Action)
    requires Shaped(t) && Enabled(t, a) && !a.Split?
    ensures t.messages <= Apply(t, a).messages
    ensures Grants(t, a) ==> Announcement(a.i, t.nodes[a.i]) <= Apply(t, a).messages
  {
    hide NextNode, NextRound, HasQuorum, ShapedRound, Announcement;
  }

  lemma TodoIsPeer(s: Net, i: Id)
    requires Shaped(s) && i in s.nodes && s.rounds[i].Pinging? && s.rounds[i].todo != []
    ensures s.rounds[i].todo[0] in s.rounds[i].todo && s.rounds[i].todo[0] in s.nodes
    ensures s.rounds[i].todo[0] != i && s.rounds[i].todo[0] in s.nodes[i].peers
  {
    assert s.rounds[i].todo[0] in s.rounds[i].todo;
    assert s.rounds[i].todo[0] in s.nodes[i].peers.Keys;
  }

  lemma BeginEffect(t: Cluster, i: Id, order: seq<Id>)
    requires Ticking(t) && i in t.net.nodes && t.net.rounds[i] == Resting && t.phases[i] == Idle
    requires Lists(order, t.net.nodes[i])
    ensures Possible(t, Do(BeginRound(i, order)))
    ensures var u := Next(t, Do(BeginRound(i, order)));
            && Moved(t, u, i) && u.phases == t.phases
            && u.net.nodes[i] == t.net.nodes[i] && u.net.rounds[i] == Pinging(order, None, EmptyScan)
  {
    hide Shaped, Moved, Lists, Next;
    Effect(t, Do(BeginRound(i, order)));
  }

  /** A peer that can be reached is asked. */
  lemma FetchEffect(t: Cluster, i: Id, j: Id)
    requires Ticking(t) && i in t.net.nodes && t.net.rounds[i].Pinging? && t.net.rounds[i].hand.None?
    requires t.net.rounds[i].todo != [] && t.net.rounds[i].todo[0] == j && t.net.split.None?
    ensures j in t.net.nodes && j != i && j in t.net.nodes[i].peers && Possible(t, Do(Fetch(i)))
    ensures var u := Next(t, Do(Fetch(i)));
            && Moved(t, u, i) && u.phases == t.phases && u.net.nodes[i] == t.net.nodes[i]
            && u.net.rounds[i] == t.net.rounds[i].(hand := Some(Held(j, Answer(t.net.nodes[j]))))
  {
    TodoIsPeer(t.net, i);
    hide Shaped, Moved, Next, Answer;
    Effect(t, Do(Fetch(i)));
  }

  /** And its answer recorded. */
  lemma RecordEffect(t: Cluster, i: Id)
    requires Ticking(t) && i in t.net.nodes && t.net.rounds[i].Pinging? && t.net.rounds[i].hand.Some?
    ensures var held := t.net.rounds[i].hand.value;
            && t.net.rounds[i].todo != [] && held.peer == t.net.rounds[i].todo[0] && held.peer in t.net.nodes[i].peers
            && Possible(t, Do(Record(i)))
    ensures var r, u := t.net.rounds[i], Next(t, Do(Record(i)));
            && Moved(t, u, i) && u.phases == t.phases
            && u.net.nodes[i] == RecordReply(t.net.nodes[i], r.hand.value.peer, r.hand.value.reply)
            && u.net.rounds[i] == Pinging(r.todo[1..], None, Observe(r.scan, r.hand.value.peer, r.hand.value.reply))
  {
    assert ShapedRound(t.net.nodes[i], t.net.rounds[i]);
    TodoIsPeer(t.net, i);
    hide Shaped, Moved, Next, RecordReply, Observe;
    Effect(t, Do(Record(i)));
  }

  lemma SkipEffect(t: Cluster, i: Id, j: Id)
    requires Ticking(t) && i in t.net.nodes && t.net.rounds[i].Pinging?
    requires t.net.rounds[i].todo != [] && t.net.rounds[i].todo[0] == j
    ensures j in t.net.nodes[i].peers && Possible(t, Do(Fail(i)))
    ensures var u := Next(t, Do(Fail(i)));
            && Moved(t, u, i) && u.phases == t.phases
            && u.net.nodes[i] == RecordFailure(t.net.nodes[i], j)
            && u.net.rounds[i] == Pinging(t.net.rounds[i].todo[1..], None, t.net.rounds[i].scan)
  {
    TodoIsPeer(t.net, i);
    hide Shaped, Moved, Next, RecordFailure;
    Effect(t, Do(Fail(i)));
  }

  lemma EndEffect(t: Cluster, i: Id, now: int)
    requires Ticking(t) && i in t.net.nodes && t.net.rounds[i].Pinging? && t.net.rounds[i].todo == []
    ensures Possible(t, Do(EndRound(i, now)))
    ensures var u := Next(t, Do(EndRound(i, now)));
            && Moved(t, u, i) && u.phases == t.phases[i := Due]
            && u.net.nodes[i] == FinishRound(t.net.nodes[i], t.net.rounds[i].scan, now) && u.net.rounds[i] == Resting
  {
    hide Shaped, Moved, Next, FinishRound;
    Effect(t, Do(EndRound(i, now)));
  }

  lemma LookEffect(t: Cluster, i: Id, now: int, deadAfter: int)
    requires Ticking(t) && i in t.net.nodes && t.phases[i] == Due
    ensures Possible(t, Look(i, now, deadAfter))
    ensures var u := Next(t, Look(i, now, deadAfter));
            && Moved(t, u, i) && u.net == t.net
            && u.phases[i] == if MasterLooksDead(t.net.nodes[i], now, deadAfter) then Firing else Idle
  {
    hide Shaped;
    MoveKeepsTicking(t, Look(i, now, deadAfter));
  }

  /** A takeover that is granted, by the health check or from outside. */
  lemma TakeoverEffect(t: Cluster, m: Move, i: Id, now: int)
    requires Ticking(t) && i in t.net.nodes && HasQuorum(t.net.nodes[i])
    requires (m == Do(TakeOver(i, now)) && t.phases[i] == Firing) || m == Outside(i, now)
    ensures Possible(t, m)
    ensures var u := Next(t, m);
            && Moved(t, u, i) && u.phases == (if m.Do? then t.phases[i := Idle] else t.phases)
            && u.net.nodes[i] == Promote(t.net.nodes[i], now) && u.net.rounds[i] == t.net.rounds[i]
            && Announcement(i, t.net.nodes[i]) <= u.net.messages
  {
    hide Shaped, Moved, Next, HasQuorum, Promote, Announcement;
    Effect(t, m);
  }

  /** Granted or refused, the takeover of a health check ends the heartbeat. */
  lemma TakeoverEnds(t: Cluster, i: Id, now: int)
    requires Ticking(t) && i in t.net.nodes && t.phases[i] == Firing
    ensures Possible(t, Do(TakeOver(i, now)))
    ensures var u := Next(t, Do(TakeOver(i, now)));
            Moved(t, u, i) && u.phases == t.phases[i := Idle] && u.net.rounds[i] == t.net.rounds[i]
  {
    hide Shaped, Moved, Next, HasQuorum, Promote, Announcement;
    Effect(t, Do(TakeOver(i, now)));
  }

  lemma HearEffect(t: Cluster, m: Message, now: int)
    requires Ticking(t) && m in t.net.messages && t.net.split.None?
    ensures m.to in t.net.nodes && Possible(t, Do(Hear(m, now)))
    ensures var u := Next(t, Do(Hear(m, now)));
            && Moved(t, u, m.to) && u.phases == t.phases
            && u.net.nodes[m.to] == Accept(t.net.nodes[m.to], Me, m.epoch, now)
            && u.net.rounds[m.to] == t.net.rounds[m.to]
  {
    assert m.to in t.net.nodes;
    hide Shaped, Moved, Next, Accept;
    Effect(t, Do(Hear(m, now)));
  }

  lemma ReleaseEffect(t: Cluster, i: Id)
    requires Ticking(t) && i in t.net.nodes
    ensures Possible(t, Do(ClusterNet.Release(i)))
    ensures var u := Next(t, Do(ClusterNet.Release(i)));
            Moved(t, u, i) && u.phases == t.phases && u.net.nodes[i] == StepDown(t.net.nodes[i])
  {
    hide Shaped, Moved, Next, StepDown;
    Effect(t, Do(ClusterNet.Release(i)));
  }

  lemma SplitEffect(t: Cluster, side: set<Id>)
    requires Ticking(t) && t.net.split.None?
    ensures Possible(t, Do(Split(side)))
    ensures var u := Next(t, Do(Split(side)));
            && Ticking(u) && u.phases == t.phases && u.net.split == Some(side)
            && u.net.nodes == t.net.nodes && u.net.rounds == t.net.rounds
  {
    MoveKeepsTicking(t, Do(Split(side)));
    hide Ticking;
  }

  // ---------------------------------------------------------------------------
  // Nobody is ever elected
  // ---------------------------------------------------------------------------

  /** Nobody is master, and nobody has heard of one. */
  ghost predicate Leaderless(t: Cluster) {
    && Ticking(t)
    && (forall i :: i in t.net.nodes ==>
          LeaderlessNode(t.net.nodes[i]) && LeaderlessRound(t.net.rounds[i]) && t.phases[i] != Firing)
    && t.net.messages == {} && t.net.claims == []
  }

  predicate LeaderlessNode(n: Node) {
    n.role != Master && n.epoch == 0 && n.currentMaster == NoMaster
  }

  predicate LeaderlessRound(r: RoundState) {
    r.Pinging? ==> r.scan == EmptyScan && (r.hand.Some? ==> r.hand.value.reply.role != Master)
  }

  lemma ActorStaysLeaderless(t: Cluster, a: Action)
    requires Leaderless(t) && Possible(t, Do(a)) && !a.Split?
    ensures LeaderlessNode(NextNode(t.net, a)) && LeaderlessRound(NextRound(t.net, a)) && !Grants(t.net, a)
  {
    hide ShapedRound, HasQuorum;
    var s := t.net;
    match a
    case BeginRound(i, order) =>
      assert NextNode(s, a) == s.nodes[i];
    case Fetch(i) =>
      assert s.rounds[i].todo[0] in s.rounds[i].todo by { TodoIsPeer(s, i); }
      TodoIsPeer(s, i);
    case Record(i) =>
      assert NextNode(s, a) == s.nodes[i].(peers := NextNode(s, a).peers);
    case Fail(i) =>
      assert NextNode(s, a) == s.nodes[i].(peers := NextNode(s, a).peers);
    case EndRound(i, now) =>
      assert NextNode(s, a) == FinishRound(s.nodes[i], s.rounds[i].scan, now);
    case TakeOver(i, now) =>
    case Hear(m, now) =>
    case Release(i) =>
      assert NextNode(s, a) == StepDown(s.nodes[i]);
  }

  lemma MoveStaysLeaderless(t: Cluster, m: Move)
    requires Leaderless(t) && Possible(t, m) && !m.Outside?
    ensures Leaderless(Next(t, m))
  {
    MoveKeepsTicking(t, m);
    PhasesStayLeaderless(t, m);
    TickingIsShaped(t);
    TickingIsShaped(Next(t, m));
    hide Ticking, Shaped, Apply, Enabled, LeaderlessRound, LeaderlessNode, Possible, NextPhases;
    if m.Do? {
      ActingIsEnabled(t, m);
      if m.a.Split? {
        SplitChangesNobody(t.net, m.a);
        SplitChangesRounds(t.net, m.a);
        SplitSendsNothing(t.net, m.a);
      } else {
        ActionStaysLeaderless(t, m);
      }
    }
  }

  lemma ActionStaysLeaderless(t: Cluster, m: Move)
    requires Leaderless(t) && Possible(t, m) && m.Do? && !m.a.Split? && Enabled(t.net, m.a)
    requires Ticking(Next(t, m)) && Next(t, m).net.nodes.Keys == t.net.nodes.Keys
    ensures var s := Next(t, m).net;
            && s.messages == {} && s.claims == []
            && forall i :: i in s.nodes ==> i in s.rounds && LeaderlessNode(s.nodes[i]) && LeaderlessRound(s.rounds[i])
  {
    Effect(t, m);
    ActorStaysLeaderless(t, m.a);
    NothingSent(t.net, m.a);
    TickingIsShaped(t);
    hide Ticking, Shaped, Enabled, LeaderlessRound, LeaderlessNode, Possible, NextPhases, NextNode, NextRound, Grants;
    hide Apply;
  }

  lemma PhasesStayLeaderless(t: Cluster, m: Move)
    requires Leaderless(t) && Possible(t, m) && !m.Outside?
    ensures forall i :: i in NextPhases(t, m) ==> NextPhases(t, m)[i] != Firing
  {
    hide Shaped, Enabled, LeaderlessRound;
  }

  lemma SplitSendsNothing(s: Net, a: Action)
    requires Shaped(s) && Enabled(s, a) && a.Split?
    ensures Apply(s, a).messages == s.messages
  {
  }

  lemma NothingSent(s: Net, a: Action)
    requires Shaped(s) && Enabled(s, a) && !Grants(s, a)
    ensures Apply(s, a).messages == s.messages && Apply(s, a).claims == s.claims
  {
    hide NextNode, NextRound, Grants, ShapedRound;
  }

  lemma {:induction false} StaysLeaderless(t: Cluster, ms: seq<Move>)
    requires Leaderless(t) && Ticks(t, ms) && Outsiders(ms) == 0
    ensures Leaderless(Later(t, ms))
    decreases |ms|
  {
    if ms != [] {
      TicksHead(t, ms);
      MoveStaysLeaderless(t, ms[0]);
      StaysLeaderless(Next(t, ms[0]), ms[1..]);
    }
  }

  lemma StartIsLeaderless(t: Cluster)
    requires Started(t)
    ensures Leaderless(t)
  {
    hide ShapedRound;
  }

  /** A cluster of fresh managers never elects anybody by itself: in every run in which
      nobody outside calls `Takeover`, no node is ever master or follows one, every
      epoch stays zero and nothing is ever announced. */
  lemma NobodyIsEverElected(t: Cluster, ms: seq<Move>)
    requires Started(t) && Ticking(t) && Ticks(t, ms) && Outsiders(ms) == 0
    ensures var s := Later(t, ms).net;
            && s.claims == [] && s.messages == {}
            && forall i :: i in s.nodes ==>
                 s.nodes[i].role != Master && s.nodes[i].epoch == 0 && s.nodes[i].currentMaster == NoMaster
  {
    StartIsLeaderless(t);
    StaysLeaderless(t, ms);
  }

  // ---------------------------------------------------------------------------
  // After a split: at most one takeover for each node of a minority
  // ---------------------------------------------------------------------------

  /** A node that will not take over any more: its marks are clear, or will be before
      its next health check. */
  ghost predicate Exhausted(t: Cluster, i: Id)
    requires Ticking(t) && i in t.phases
  {
    Clear(t.net, i) || (t.phases[i] == Idle && (t.net.rounds[i].Resting? || Clearing(t.net, i)))
  }

  lemma ExhaustedStays(t: Cluster, m: Move, i: Id)
    requires Ticking(t) && Possible(t, m) && t.net.split.Some? && i in t.phases && Exhausted(t, i)
    ensures Ticking(Next(t, m)) && i in Next(t, m).phases && Exhausted(Next(t, m), i)
    ensures Next(t, m).net.split == t.net.split
  {
    MoveKeepsTicking(t, m);
    hide Clear, Clearing, Apply, NextNode, Enabled, Shaped;
    TickingIsShaped(t);
    if Acting(m).Some? {
      var a := Acting(m).value;
      ActingIsEnabled(t, m);
      if Clear(t.net, i) {
        ClearStaysClear(t.net, a, i);
      } else if Clearing(t.net, i) {
        ClearingGoesOn(t.net, a, i);
      } else {
        RestingGoesOn(t, m, i);
      }
    }
  }

  lemma RestingGoesOn(t: Cluster, m: Move, i: Id)
    requires Ticking(t) && Possible(t, m) && t.net.split.Some? && i in t.phases && Acting(m).Some?
    requires t.phases[i] == Idle && t.net.rounds[i].Resting? && Ticking(Next(t, m)) && i in Next(t, m).phases
    ensures Exhausted(Next(t, m), i) && Next(t, m).net.split == t.net.split
  {
    hide Clear, Clearing, Apply, NextNode, Shaped, Enabled;
    var a := Acting(m).value;
    ActingIsEnabled(t, m);
    NotSplitAgain(t.net, a);
    EffectOnNodes(t.net, a);
    if a.BeginRound? && a.i == i {
      BeginIsClearing(t.net, a);
    } else {
      StaysResting(t, a, i);
    }
  }

  lemma NotSplitAgain(s: Net, a: Action)
    requires Shaped(s) && Enabled(s, a) && s.split.Some?
    ensures !a.Split?
  {
  }

  /** A node that is not in a round can only begin one. */
  lemma StaysResting(t: Cluster, a: Action, i: Id)
    requires Shaped(t.net) && Enabled(t.net, a) && !a.Split? && i in t.net.nodes && t.net.rounds[i].Resting?
    requires !(a.BeginRound? && a.i == i)
    ensures Actor(a) == i ==> NextRound(t.net, a).Resting? && !a.EndRound?
  {
    hide ShapedRound;
  }

  /** The node itself takes over, and is granted it. */
  ghost predicate Claims(t: Cluster, m: Move, i: Id)
    requires Ticking(t) && Possible(t, m)
  {
    Acting(m).Some? && Acting(m).value.TakeOver? && Acting(m).value.i == i && Grants(t.net, Acting(m).value)
  }

  lemma ExhaustedClaimsNothing(t: Cluster, m: Move, side: set<Id>, i: Id)
    requires Ticking(t) && Possible(t, m) && !(m.Outside? && m.i == i)
    requires Minority(t.net, side) && i in side && i in t.phases && Exhausted(t, i)
    ensures !Claims(t, m, i)
  {
    hide Clear, Clearing, HasQuorum, Minority, Shaped;
    TickingIsShaped(t);
    if Clear(t.net, i) {
      MinorityHasNoQuorum(t.net, side, i);
    }
  }

  lemma ClaimingExhausts(t: Cluster, m: Move, i: Id)
    requires Ticking(t) && Possible(t, m) && i in t.phases && m.Do? && m.a.TakeOver? && m.a.i == i
    requires Ticking(Next(t, m)) && i in Next(t, m).phases
    ensures Exhausted(Next(t, m), i)
  {
    hide Clear, Clearing, Apply, NextNode, ShapedRound, HasQuorum;
    EffectOnNodes(t.net, m.a);
  }

  function ClaimsBy(claims: seq<Claim>, i: Id): nat {
    if claims == [] then 0
    else ClaimsBy(claims[..|claims| - 1], i) + (if claims[|claims| - 1].node == i then 1 else 0)
  }

  lemma MoveClaims(t: Cluster, m: Move, i: Id)
    requires Ticking(t) && Possible(t, m)
    ensures ClaimsBy(Next(t, m).net.claims, i) == ClaimsBy(t.net.claims, i) + (if Claims(t, m, i) then 1 else 0)
  {
    hide NextNode, NextRound, ShapedRound, HasQuorum;
    if Acting(m).Some? && Grants(t.net, Acting(m).value) {
      var c := Claim(Acting(m).value.i, t.net.nodes[Acting(m).value.i].epoch + 1);
      assert (t.net.claims + [c])[..|t.net.claims|] == t.net.claims;
    }
  }

  predicate NotCalled(ms: seq<Move>, i: Id) {
    forall k :: 0 <= k < |ms| ==> !(ms[k].Outside? && ms[k].i == i)
  }

  lemma NotCalledLater(ms: seq<Move>, i: Id)
    requires NotCalled(ms, i) && ms != []
    ensures NotCalled(ms[1..], i) && !(ms[0].Outside? && ms[0].i == i)
  {
  }

  /** After a split, a node on a side without a majority takes over at most once more,
      on marks from before the split, and not at all once it is exhausted: over every
      run in which nobody outside calls its `Takeover`. */
  lemma {:induction false} AtMostOneTakeover(t: Cluster, ms: seq<Move>, side: set<Id>, i: Id)
    requires Ticking(t) && Ticks(t, ms) && Minority(t.net, side) && i in side && i in t.phases && NotCalled(ms, i)
    ensures ClaimsBy(Later(t, ms).net.claims, i) <= ClaimsBy(t.net.claims, i) + (if Exhausted(t, i) then 0 else 1)
    decreases |ms|
  {
    hide Possible, Next, Exhausted, Claims, ClaimsBy, Minority, Ticking;
    TickingIsShaped(t);
    if ms != [] {
      TicksHead(t, ms);
      var u := Next(t, ms[0]);
      AfterMove(t, ms[0], side, i);
      NotCalledLater(ms, i);
      AtMostOneTakeover(u, ms[1..], side, i);
    }
  }

  lemma AfterMove(t: Cluster, m: Move, side: set<Id>, i: Id)
    requires Ticking(t) && Possible(t, m) && Minority(t.net, side) && i in side && i in t.phases
    requires !(m.Outside? && m.i == i)
    ensures var u := Next(t, m);
            && Ticking(u) && i in u.phases && Minority(u.net, side)
            && (Exhausted(t, i) ==> Exhausted(u, i) && ClaimsBy(u.net.claims, i) == ClaimsBy(t.net.claims, i))
            && ClaimsBy(u.net.claims, i) <= ClaimsBy(t.net.claims, i) + 1
            && (ClaimsBy(u.net.claims, i) > ClaimsBy(t.net.claims, i) ==> Exhausted(u, i))
  {
    hide Apply, NextNode, Shaped, Clear, Clearing, HasQuorum, NextPhases;
    MoveKeepsTicking(t, m);
    TickingIsShaped(t);
    MoveClaims(t, m, i);
    MinorityIsSplit(t.net, side);
    SplitIsKept(t, m);
    MinorityDependsOnNodes(t.net, Next(t, m).net, side);
    if Exhausted(t, i) {
      ExhaustedClaimsNothing(t, m, side, i);
      ExhaustedStays(t, m, i);
    } else if Claims(t, m, i) {
      ClaimingExhausts(t, m, i);
    }
    hide Exhausted, Minority, ClaimsBy, Next, Ticking, Possible;
  }

  lemma SplitIsKept(t: Cluster, m: Move)
    requires Ticking(t) && Possible(t, m) && t.net.split.Some?
    ensures Next(t, m).net.split == t.net.split
  {
    hide Apply, NextNode, NextRound, Shaped, NextPhases;
    if Acting(m).Some? {
      ActingIsEnabled(t, m);
      EffectOnNodes(t.net, Acting(m).value);
    }
  }
}
