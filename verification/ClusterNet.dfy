/** A whole cluster: the nodes, the ping round each of them is in, and every
    takeover message ever sent. A message may be delivered late, twice, out of
    order or never; and a ping is answered at one moment and recorded at another.
    Here `Takeover` may be called at any time, by anybody: what holds of every such
    run holds of the runs of `ClusterTicks`, in which it is called as the program
    calls it. Membership is fixed and every node lists all the others. */
module ClusterNet {
  import opened Wrappers
  import opened ClusterNode

  /** A reply that was computed by `peer` and is on its way back. */
  datatype Held = Held(peer: Id, reply: PingReply)

  datatype RoundState =
    | Resting
    | Pinging(todo: seq<Id>, hand: Option<Held>, scan: Scan)

  /** The body of a takeover message always names its sender "me". */
  datatype Message = Message(from: Id, to: Id, epoch: int)

  datatype Claim = Claim(node: Id, epoch: int)

  /** `claims` is history: the successful takeovers, oldest first. */
  datatype Net = Net(
    nodes: map<Id, Node>,
    rounds: map<Id, RoundState>,
    messages: set<Message>,
    split: Option<set<Id>>,
    claims: seq<Claim>)

  datatype Action =
    | BeginRound(i: Id, order: seq<Id>)
    | Fetch(i: Id)
    | Record(i: Id)
    | Fail(i: Id)
    | EndRound(i: Id, now: int)
    | TakeOver(i: Id, now: int)
    | Hear(m: Message, now: int)
    | Release(i: Id)
    | Split(side: set<Id>)

  /** Whether `i` can reach `j`: until the network is split everybody can. */
  predicate Reaches(s: Net, i: Id, j: Id) {
    s.split.None? || (i in s.split.value <==> j in s.split.value)
  }

  ghost predicate Enabled(s: Net, a: Action)
    requires Shaped(s)
  {
    match a
    case BeginRound(i, order) => i in s.nodes && s.rounds[i].Resting? && Lists(order, s.nodes[i])
    case Fetch(i) => i in s.nodes && s.rounds[i].Pinging? && s.rounds[i].todo != [] && s.rounds[i].hand.None?
                     && Reaches(s, i, s.rounds[i].todo[0])
    case Record(i) => i in s.nodes && s.rounds[i].Pinging? && s.rounds[i].hand.Some?
    case Fail(i) => i in s.nodes && s.rounds[i].Pinging? && s.rounds[i].todo != []
    case EndRound(i, _) => i in s.nodes && s.rounds[i].Pinging? && s.rounds[i].todo == []
    case TakeOver(i, _) => i in s.nodes
    case Hear(m, _) => m in s.messages && Reaches(s, m.from, m.to)
    case Release(i) => i in s.nodes
    case Split(side) => s.split.None?
  }

  /** The node whose critical section the action is. */
  function Actor(a: Action): Id
    requires !a.Split?
  {
    if a.Hear? then a.m.to else a.i
  }

  ghost function NextNode(s: Net, a: Action): Node
    requires Shaped(s) && Enabled(s, a) && !a.Split?
  {
    var n, r := s.nodes[Actor(a)], s.rounds[Actor(a)];
    match a
    case Record(_) => assert r.todo[0] in r.todo; RecordReply(n, r.hand.value.peer, r.hand.value.reply)
    case Fail(_) => assert r.todo[0] in r.todo; RecordFailure(n, r.todo[0])
    case EndRound(_, now) => FinishRound(n, r.scan, now)
    case TakeOver(_, now) => Promote(n, now)
    case Hear(m, now) => Accept(n, Me, m.epoch, now)
    case Release(_) => StepDown(n)
    case _ => n
  }

  ghost function NextRound(s: Net, a: Action): RoundState
    requires Shaped(s) && Enabled(s, a) && !a.Split?
  {
    var r := s.rounds[Actor(a)];
    match a
    case BeginRound(_, order) => Pinging(order, None, EmptyScan)
    case Fetch(_) => assert r.todo[0] in r.todo; r.(hand := Some(Held(r.todo[0], Answer(s.nodes[r.todo[0]]))))
    case Record(_) => Pinging(r.todo[1..], None, Observe(r.scan, r.hand.value.peer, r.hand.value.reply))
    case Fail(_) => Pinging(r.todo[1..], None, r.scan)
    case EndRound(_, _) => Resting
    case _ => r
  }

  /** A takeover is granted only with a quorum. */
  ghost predicate Grants(s: Net, a: Action) {
    a.TakeOver? && a.i in s.nodes && HasQuorum(s.nodes[a.i])
  }

  /** What a node sends when its takeover is granted: its next epoch, to every peer. */
  function Announcement(i: Id, n: Node): set<Message> {
    set j | j in n.peers :: Message(i, j, n.epoch + 1)
  }

  ghost function Apply(s: Net, a: Action): Net
    requires Shaped(s) && Enabled(s, a)
  {
    if a.Split? then
      s.(split := Some(a.side))
    else
      var i := Actor(a);
      Net(s.nodes[i := NextNode(s, a)],
          s.rounds[i := NextRound(s, a)],
          if Grants(s, a) then s.messages + Announcement(i, s.nodes[i]) else s.messages,
          s.split,
          if Grants(s, a) then s.claims + [Claim(i, s.nodes[i].epoch + 1)] else s.claims)
  }

  // ---------------------------------------------------------------------------
  // Shape: what every action keeps so that the model is well defined
  // ---------------------------------------------------------------------------

  ghost predicate ShapedRound(n: Node, r: RoundState) {
    r.Pinging? ==>
      && (forall p :: p in r.todo ==> p in n.peers)
      && (r.hand.Some? ==> r.todo != [] && r.hand.value.peer == r.todo[0])
      && (r.scan.found.Some? ==> r.scan.found.value in n.peers)
  }

  ghost predicate Shaped(s: Net) {
    && s.rounds.Keys == s.nodes.Keys
    && (forall i :: i in s.nodes ==> s.nodes[i].peers.Keys == s.nodes.Keys - {i})
    && (forall i :: i in s.nodes ==> ShapedRound(s.nodes[i], s.rounds[i]))
    && (forall m :: m in s.messages ==> m.from in s.nodes && m.to in s.nodes)
  }

  lemma NextIsShaped(s: Net, a: Action)
    requires Shaped(s) && Enabled(s, a) && !a.Split?
    ensures NextNode(s, a).peers.Keys == s.nodes[Actor(a)].peers.Keys
    ensures ShapedRound(NextNode(s, a), NextRound(s, a))
  {
    var r := s.rounds[Actor(a)];
    if a.Record? || a.Fail? {
      assert r.todo[0] in r.todo;
      assert forall p :: p in r.todo[1..] ==> p in r.todo;
    }
  }

  lemma UpdateKeepsShape(s: Net, i: Id, n: Node, r: RoundState, messages: set<Message>, claims: seq<Claim>)
    requires Shaped(s) && i in s.nodes
    requires n.peers.Keys == s.nodes[i].peers.Keys && ShapedRound(n, r)
    requires forall m :: m in messages ==> m.from in s.nodes && m.to in s.nodes
    ensures var t := Net(s.nodes[i := n], s.rounds[i := r], messages, s.split, claims);
            Shaped(t) && t.nodes.Keys == s.nodes.Keys
  {
    hide ShapedRound;
    var t := Net(s.nodes[i := n], s.rounds[i := r], messages, s.split, claims);
    assert t.nodes.Keys == s.nodes.Keys && t.rounds.Keys == t.nodes.Keys;
    forall j | j in t.nodes
      ensures t.nodes[j].peers.Keys == t.nodes.Keys - {j}
      ensures ShapedRound(t.nodes[j], t.rounds[j])
    {
      if j != i {
        assert t.nodes[j] == s.nodes[j] && t.rounds[j] == s.rounds[j];
      }
    }
  }

  lemma StepKeepsShape(s: Net, a: Action)
    requires Shaped(s) && Enabled(s, a)
    ensures Shaped(Apply(s, a))
    ensures Apply(s, a).nodes.Keys == s.nodes.Keys
  {
    if !a.Split? {
      var t := Apply(s, a);
      NextIsShaped(s, a);
      UpdateKeepsShape(s, Actor(a), NextNode(s, a), NextRound(s, a), t.messages, t.claims);
    }
  }

  /** An action changes its own node and round only. */
  lemma EffectOnNodes(t: Net, a: Action)
    requires Shaped(t) && Enabled(t, a) && !a.Split?
    ensures Actor(a) in t.nodes && t.rounds.Keys == t.nodes.Keys
    ensures Apply(t, a).nodes == t.nodes[Actor(a) := NextNode(t, a)]
    ensures Apply(t, a).rounds == t.rounds[Actor(a) := NextRound(t, a)]
    ensures Apply(t, a).split == t.split
  {
    hide NextNode, NextRound;
  }

  lemma SplitChangesNobody(s: Net, a: Action)
    requires Shaped(s) && Enabled(s, a) && a.Split?
    ensures Apply(s, a).nodes == s.nodes && Apply(s, a).claims == s.claims
  {
  }

  // ---------------------------------------------------------------------------
  // Runs
  // ---------------------------------------------------------------------------

  ghost predicate Runs(s: Net, acts: seq<Action>)
    requires Shaped(s)
    decreases |acts|
  {
    acts == [] || (Enabled(s, acts[0]) && (StepKeepsShape(s, acts[0]); Runs(Apply(s, acts[0]), acts[1..])))
  }

  ghost function After(s: Net, acts: seq<Action>): (t: Net)
    requires Shaped(s) && Runs(s, acts)
    ensures Shaped(t) && t.nodes.Keys == s.nodes.Keys
    decreases |acts|
  {
    if acts == [] then s else (StepKeepsShape(s, acts[0]); After(Apply(s, acts[0]), acts[1..]))
  }

  lemma EmptyRun(s: Net)
    requires Shaped(s)
    ensures Runs(s, []) && After(s, []) == s
  {
  }

  lemma RunHead(s: Net, acts: seq<Action>)
    requires Shaped(s) && Runs(s, acts) && acts != []
    ensures Enabled(s, acts[0]) && Shaped(Apply(s, acts[0])) && Apply(s, acts[0]).nodes.Keys == s.nodes.Keys
    ensures Runs(Apply(s, acts[0]), acts[1..])
    ensures After(s, acts) == After(Apply(s, acts[0]), acts[1..])
  {
    StepKeepsShape(s, acts[0]);
  }

  /** One action of a run, then the rest of it. */
  lemma OneMoreAction(s: Net, a: Action, acts: seq<Action>)
    requires Shaped(s) && Enabled(s, a) && Shaped(Apply(s, a)) && Runs(Apply(s, a), acts)
    ensures Runs(s, [a] + acts) && After(s, [a] + acts) == After(Apply(s, a), acts)
  {
    hide Shaped, Enabled, Apply;
    assert ([a] + acts)[1..] == acts;
  }

  lemma {:induction false} RunsSplit(s: Net, u: seq<Action>, v: seq<Action>)
    requires Shaped(s)
    ensures Runs(s, u + v) <==> Runs(s, u) && Runs(After(s, u), v)
    ensures Runs(s, u + v) ==> After(s, u + v) == After(After(s, u), v)
    decreases |u|
  {
    if u == [] {
      assert u + v == v;
    } else {
      assert (u + v)[0] == u[0] && (u + v)[1..] == u[1..] + v;
      if Enabled(s, u[0]) {
        StepKeepsShape(s, u[0]);
        RunsSplit(Apply(s, u[0]), u[1..], v);
      }
    }
  }

  /** A fresh manager, as `New` builds it. */
  ghost predicate IsNew(n: Node) {
    && n.epoch == 0 && n.currentMaster == NoMaster && n.role == (if n.mode == Off then Standalone else Slave)
    && forall p :: p in n.peers ==> n.peers[p] == PeerRecord(false, Unknown, 0)
  }

  /** Fresh managers in a cluster that lists them all. */
  ghost predicate Init(s: Net) {
    && Shaped(s)
    && (forall i :: i in s.nodes ==> s.rounds[i] == Resting && IsNew(s.nodes[i]))
    && s.messages == {} && s.split == None && s.claims == []
  }
}
