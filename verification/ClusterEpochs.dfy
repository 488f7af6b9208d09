/** Where epochs come from, and when "one master per epoch" survives a step. */
module ClusterEpochs {
  import opened Wrappers
  import opened ClusterNode
  import opened ClusterNet

  // ---------------------------------------------------------------------------
  // Epochs only move forward
  // ---------------------------------------------------------------------------

  lemma NextEpochRises(s: Net, a: Action)
    requires Shaped(s) && Enabled(s, a) && !a.Split?
    ensures s.nodes[Actor(a)].epoch <= NextNode(s, a).epoch
  {
  }

  lemma EpochsRise(s: Net, a: Action)
    requires Shaped(s) && Enabled(s, a)
    ensures Shaped(Apply(s, a))
    ensures forall i :: i in s.nodes ==> i in Apply(s, a).nodes && s.nodes[i].epoch <= Apply(s, a).nodes[i].epoch
  {
    hide NextNode, NextRound, Grants;
    StepKeepsShape(s, a);
    if !a.Split? {
      NextEpochRises(s, a);
    }
  }

  /** A node's epoch never decreases along a run. */
  lemma {:induction false} EpochsNeverFall(s: Net, acts: seq<Action>, i: Id)
    requires Shaped(s) && Runs(s, acts) && i in s.nodes
    ensures s.nodes[i].epoch <= After(s, acts).nodes[i].epoch
    decreases |acts|
  {
    if acts != [] {
      EpochsRise(s, acts[0]);
      EpochsNeverFall(Apply(s, acts[0]), acts[1..], i);
    }
  }

  // ---------------------------------------------------------------------------
  // Only takeovers create epochs
  // ---------------------------------------------------------------------------

  ghost predicate Claimed(claims: seq<Claim>, epoch: int) {
    exists k :: 0 <= k < |claims| && claims[k].epoch == epoch
  }

  /** An epoch somebody may hold: the initial zero, or one a takeover claimed. */
  ghost predicate Known(claims: seq<Claim>, epoch: int) {
    epoch == 0 || Claimed(claims, epoch)
  }

  /** What a ping round carries was true of the peer it came from. */
  ghost predicate RoundBounded(s: Net, r: RoundState)
    requires Shaped(s)
  {
    r.Pinging? ==>
      && (r.scan.found.None? ==> r.scan.epoch == 0)
      && (r.scan.found.Some? ==> r.scan.found.value in s.nodes && r.scan.epoch <= s.nodes[r.scan.found.value].epoch)
      && (r.hand.Some? ==> r.hand.value.peer in s.nodes && r.hand.value.reply.epoch <= s.nodes[r.hand.value.peer].epoch)
  }

  ghost predicate RoundKnown(s: Net, r: RoundState) {
    r.Pinging? ==>
      && Known(s.claims, r.scan.epoch)
      && (r.hand.Some? ==> Known(s.claims, r.hand.value.reply.epoch))
  }

  ghost predicate Bounded(s: Net) {
    && Shaped(s)
    && (forall i :: i in s.nodes ==> RoundBounded(s, s.rounds[i]))
    && (forall m :: m in s.messages ==> m.epoch <= s.nodes[m.from].epoch)
  }

  ghost predicate NodeKnown(claims: seq<Claim>, n: Node) {
    && Known(claims, n.epoch)
    && forall p :: p in n.peers ==> Known(claims, n.peers[p].epoch)
  }

  ghost predicate Signed(messages: set<Message>, claims: seq<Claim>) {
    forall m :: m in messages ==> Claim(m.from, m.epoch) in claims
  }

  ghost predicate Sourced(s: Net) {
    && Shaped(s)
    && (forall i :: i in s.nodes ==> NodeKnown(s.claims, s.nodes[i]) && RoundKnown(s, s.rounds[i]))
    && Signed(s.messages, s.claims)
  }

  ghost predicate Ordered(s: Net) {
    && (forall k :: 0 <= k < |s.claims| ==>
          && s.claims[k].node in s.nodes
          && 1 <= s.claims[k].epoch <= s.nodes[s.claims[k].node].epoch
          && s.claims[k].epoch <= k + 1)
    && (forall k, l :: 0 <= k < l < |s.claims| && s.claims[k].node == s.claims[l].node ==>
          s.claims[k].epoch < s.claims[l].epoch)
    && (forall k, e :: 0 <= k < |s.claims| && 1 <= e <= s.claims[k].epoch ==> Claimed(s.claims, e))
  }

  lemma ClaimsGrow(s: Net, a: Action)
    requires Shaped(s) && Enabled(s, a)
    ensures s.claims <= Apply(s, a).claims
    ensures forall e :: Known(s.claims, e) ==> Known(Apply(s, a).claims, e)
  {
  }

  lemma NextRoundBounded(s: Net, a: Action)
    requires Bounded(s) && Enabled(s, a) && !a.Split?
    ensures RoundBounded(s, NextRound(s, a))
  {
    var r := s.rounds[Actor(a)];
    assert RoundBounded(s, r);
    if a.Fetch? {
      assert r.todo[0] in r.todo;
    }
  }

  /** Bounds only loosen as epochs rise. */
  lemma RoundStaysBounded(s: Net, t: Net, r: RoundState)
    requires Shaped(s) && Shaped(t) && RoundBounded(s, r)
    requires forall i :: i in s.nodes ==> i in t.nodes && s.nodes[i].epoch <= t.nodes[i].epoch
    ensures RoundBounded(t, r)
  {
  }

  lemma StepKeepsBounds(s: Net, a: Action)
    requires Bounded(s) && Enabled(s, a)
    ensures Bounded(Apply(s, a))
  {
    hide NextNode, NextRound, Grants, RoundBounded;
    EpochsRise(s, a);
    var t := Apply(s, a);
    if !a.Split? {
      NextRoundBounded(s, a);
    }
    forall i | i in t.nodes ensures RoundBounded(t, t.rounds[i]) {
      if a.Split? || i != Actor(a) {
        assert t.rounds[i] == s.rounds[i];
      }
      RoundStaysBounded(s, t, t.rounds[i]);
    }
    MessagesStayBounded(s, a);
  }

  lemma MessagesStayBounded(s: Net, a: Action)
    requires Bounded(s) && Enabled(s, a)
    ensures Shaped(Apply(s, a))
    ensures forall m :: m in Apply(s, a).messages ==> m.epoch <= Apply(s, a).nodes[m.from].epoch
  {
    EpochsRise(s, a);
  }

  /** Everything a step writes was known before it, except the epoch a granted
      takeover claims. */
  lemma NextIsSourced(s: Net, a: Action)
    requires Sourced(s) && Enabled(s, a) && !a.Split?
    ensures RoundKnown(s, NextRound(s, a))
    ensures !Grants(s, a) ==> NodeKnown(s.claims, NextNode(s, a))
    ensures Grants(s, a) ==> NextNode(s, a).epoch == s.nodes[a.i].epoch + 1
    ensures Grants(s, a) ==> NextNode(s, a).peers == s.nodes[a.i].peers
  {
    hide HasQuorum;
    var i := Actor(a);
    var r := s.rounds[i];
    assert NodeKnown(s.claims, s.nodes[i]) && RoundKnown(s, r);
    if a.Hear? {
      var k :| 0 <= k < |s.claims| && s.claims[k] == Claim(a.m.from, a.m.epoch);
      assert Known(s.claims, a.m.epoch);
    }
    if a.Fetch? {
      assert r.todo[0] in r.todo;
      assert NodeKnown(s.claims, s.nodes[r.todo[0]]);
    }
    if a.Record? || a.Fail? {
      assert r.todo[0] in r.todo;
    }
  }

  lemma NodeStaysKnown(s: Net, a: Action, n: Node)
    requires Shaped(s) && Enabled(s, a) && NodeKnown(s.claims, n)
    ensures NodeKnown(Apply(s, a).claims, n)
  {
    ClaimsGrow(s, a);
  }

  lemma ActorStaysKnown(s: Net, a: Action)
    requires Sourced(s) && Enabled(s, a) && !a.Split?
    ensures NodeKnown(Apply(s, a).claims, NextNode(s, a))
  {
    NextIsSourced(s, a);
    NodeStaysKnown(s, a, s.nodes[Actor(a)]) by { assert NodeKnown(s.claims, s.nodes[Actor(a)]); }
    if Grants(s, a) {
      assert Apply(s, a).claims[|s.claims|].epoch == NextNode(s, a).epoch;
    } else {
      NodeStaysKnown(s, a, NextNode(s, a));
    }
  }

  lemma StepKeepsSources(s: Net, a: Action)
    requires Sourced(s) && Enabled(s, a)
    ensures Sourced(Apply(s, a))
  {
    hide NextNode, NextRound, Grants, Enabled;
    StepKeepsShape(s, a);
    ClaimsGrow(s, a);
    var t := Apply(s, a);
    if !a.Split? {
      NextIsSourced(s, a);
      ActorStaysKnown(s, a);
      forall i | i in t.nodes ensures NodeKnown(t.claims, t.nodes[i]) && RoundKnown(t, t.rounds[i]) {
        if i != Actor(a) {
          assert NodeKnown(s.claims, s.nodes[i]);
          NodeStaysKnown(s, a, s.nodes[i]);
        }
        assert RoundKnown(s, t.rounds[i]);
      }
      MessagesStaySourced(s, a);
    }
  }

  lemma MessagesStaySourced(s: Net, a: Action)
    requires Shaped(s) && Enabled(s, a) && Signed(s.messages, s.claims)
    ensures Signed(Apply(s, a).messages, Apply(s, a).claims)
  {
    hide NextNode, NextRound, HasQuorum, ShapedRound;
    if Grants(s, a) {
      var c := Claim(a.i, s.nodes[a.i].epoch + 1);
      var sent := Announcement(a.i, s.nodes[a.i]);
      assert Signed(sent, [c]);
      assert Signed(s.messages + sent, s.claims + [c]);
    }
  }

  /** Appending the next epoch of a node keeps the order of the claims. */
  lemma StepKeepsOrder(s: Net, a: Action)
    requires Shaped(s) && Enabled(s, a) && Ordered(s)
    requires Grants(s, a) ==> Known(s.claims, s.nodes[a.i].epoch)
    ensures Ordered(Apply(s, a))
  {
    hide NextRound, Enabled;
    EpochsRise(s, a);
    StepKeepsShape(s, a);
    var t := Apply(s, a);
    if Grants(s, a) {
      assert t.nodes[a.i] == Promote(s.nodes[a.i], a.now);
      AppendKeepsOrder(s, t, a.i, s.nodes[a.i].epoch);
    } else {
      OrderDependsOnClaims(s, t);
    }
  }

  lemma OrderDependsOnClaims(s: Net, t: Net)
    requires Ordered(s) && t.claims == s.claims
    requires forall i :: i in s.nodes ==> i in t.nodes && s.nodes[i].epoch <= t.nodes[i].epoch
    ensures Ordered(t)
  {
  }

  lemma AppendKeepsOrder(s: Net, t: Net, i: Id, e: int)
    requires Ordered(s) && Known(s.claims, e)
    requires t.claims == s.claims + [Claim(i, e + 1)]
    requires i in s.nodes && s.nodes[i].epoch == e && t.nodes.Keys == s.nodes.Keys && t.nodes[i].epoch == e + 1
    requires forall j :: j in s.nodes ==> s.nodes[j].epoch <= t.nodes[j].epoch
    ensures Ordered(t)
  {
    NoGapAppears(s.claims, t.claims, e);
    NewClaimIsNext(s, i, e);
    assert s.claims <= t.claims && t.claims[|s.claims|] == Claim(i, e + 1);
    hide Known, Claimed;
  }

  /** A new claim of epoch `e + 1` is above its node's earlier ones, and in its place. */
  lemma NewClaimIsNext(s: Net, i: Id, e: int)
    requires Ordered(s) && Known(s.claims, e) && i in s.nodes && s.nodes[i].epoch == e
    ensures 0 <= e <= |s.claims|
    ensures forall k :: 0 <= k < |s.claims| && s.claims[k].node == i ==> s.claims[k].epoch <= e
  {
    if e != 0 {
      var k :| 0 <= k < |s.claims| && s.claims[k].epoch == e;
    }
  }

  lemma NoGapAppears(before: seq<Claim>, after: seq<Claim>, e: int)
    requires |after| == |before| + 1 && after[..|before|] == before && after[|before|].epoch == e + 1
    requires Known(before, e)
    requires forall k, x :: 0 <= k < |before| && 1 <= x <= before[k].epoch ==> Claimed(before, x)
    ensures forall k, x :: 0 <= k < |after| && 1 <= x <= after[k].epoch ==> Claimed(after, x)
  {
    forall k, x | 0 <= k < |after| && 1 <= x <= after[k].epoch ensures Claimed(after, x) {
      if k == |before| && x == e + 1 {
        assert after[k].epoch == x;
      } else {
        if k == |before| {
          assert Claimed(before, e);
          var j :| 0 <= j < |before| && before[j].epoch == e;
          assert Claimed(before, x);
        } else {
          assert before[k] == after[k] && Claimed(before, x);
        }
        var j :| 0 <= j < |before| && before[j].epoch == x;
        assert after[j].epoch == x;
      }
    }
  }

  ghost predicate Inv(s: Net) {
    Bounded(s) && Sourced(s) && Ordered(s)
  }

  lemma InitHoldsInv(s: Net)
    requires Init(s)
    ensures Inv(s)
  {
  }

  lemma {:induction false} RunKeepsInv(s: Net, acts: seq<Action>)
    requires Inv(s) && Runs(s, acts)
    ensures Inv(After(s, acts))
    ensures s.claims <= After(s, acts).claims
    decreases |acts|
  {
    if acts != [] {
      StepKeepsBounds(s, acts[0]);
      StepKeepsSources(s, acts[0]);
      if Grants(s, acts[0]) {
        assert NodeKnown(s.claims, s.nodes[acts[0].i]);
      }
      StepKeepsOrder(s, acts[0]);
      ClaimsGrow(s, acts[0]);
      RunKeepsInv(Apply(s, acts[0]), acts[1..]);
    }
  }

  /** Every epoch held by a node, recorded about a peer, carried by a ping or named in
      a message is zero or was claimed by a takeover; a message carries its own
      sender's claim; and no epoch exceeds the number of takeovers so far. */
  ghost predicate EpochsAreClaims(t: Net) {
    && (forall i :: i in t.nodes ==> NodeKnown(t.claims, t.nodes[i]) && t.nodes[i].epoch <= |t.claims|)
    && (forall i :: i in t.nodes ==> i in t.rounds && RoundKnown(t, t.rounds[i]))
    && (forall m :: m in t.messages ==> Claim(m.from, m.epoch) in t.claims && 1 <= m.epoch <= |t.claims|)
  }

  /** The claimed epochs leave no gap, and one node's claims strictly increase. */
  ghost predicate ClaimsAscend(claims: seq<Claim>) {
    && (forall k, e :: 0 <= k < |claims| && 1 <= e <= claims[k].epoch ==> Claimed(claims, e))
    && (forall k, l :: 0 <= k < l < |claims| && claims[k].node == claims[l].node ==> claims[k].epoch < claims[l].epoch)
  }

  lemma KnownIsSmall(t: Net, epoch: int)
    requires Ordered(t) && Known(t.claims, epoch)
    ensures epoch <= |t.claims|
  {
  }

  lemma InvGivesClaims(t: Net)
    requires Inv(t)
    ensures EpochsAreClaims(t) && ClaimsAscend(t.claims)
  {
    forall m | m in t.messages ensures Claim(m.from, m.epoch) in t.claims && 1 <= m.epoch <= |t.claims| {
      var k :| 0 <= k < |t.claims| && t.claims[k] == Claim(m.from, m.epoch);
    }
    forall i | i in t.nodes ensures NodeKnown(t.claims, t.nodes[i]) && t.nodes[i].epoch <= |t.claims| {
      KnownIsSmall(t, t.nodes[i].epoch);
    }
  }

  /** In every run of fresh managers, only takeovers create epochs. */
  lemma OnlyTakeoversCreateEpochs(s: Net, acts: seq<Action>)
    requires Init(s) && Runs(s, acts)
    ensures EpochsAreClaims(After(s, acts)) && ClaimsAscend(After(s, acts).claims)
  {
    hide Inv, EpochsAreClaims, ClaimsAscend;
    InitHoldsInv(s);
    RunKeepsInv(s, acts);
    InvGivesClaims(After(s, acts));
  }

  // ---------------------------------------------------------------------------
  // At most one master per epoch: when it survives
  // ---------------------------------------------------------------------------

  ghost predicate IsMaster(s: Net, i: Id, epoch: int) {
    i in s.nodes && s.nodes[i].role == Master && s.nodes[i].epoch == epoch
  }

  ghost predicate OneMasterPerEpoch(s: Net) {
    forall i, j, e :: IsMaster(s, i, e) && IsMaster(s, j, e) ==> i == j
  }

  /** The epoch a master is about to hold because of `a`, if it changes. */
  ghost function EpochEntered(s: Net, a: Action): Option<int>
    requires Shaped(s) && Enabled(s, a)
  {
    match a
    case TakeOver(i, _) => if HasQuorum(s.nodes[i]) then Some(s.nodes[i].epoch + 1) else None
    case EndRound(i, _) =>
      var scan := s.rounds[i].scan;
      if s.nodes[i].role == Master && scan.found.Some? && scan.epoch > s.nodes[i].epoch then Some(scan.epoch) else None
    case _ => None
  }

  ghost predicate EntersFreely(s: Net, a: Action)
    requires Shaped(s) && Enabled(s, a)
  {
    EpochEntered(s, a).Some? ==> forall j :: IsMaster(s, j, EpochEntered(s, a).value) ==> j == Actor(a)
  }

  lemma EpochEnteredIsExact(s: Net, a: Action)
    requires Shaped(s) && Enabled(s, a) && !a.Split?
    ensures var n, n' := s.nodes[Actor(a)], NextNode(s, a);
            match EpochEntered(s, a)
            case Some(e) => n'.role == Master && n'.epoch == e
            case None => n'.role == Master ==> n.role == Master && n.epoch == n'.epoch
  {
    hide ShapedRound, HasQuorum;
    match a
    case TakeOver(i, now) =>
      assert NextNode(s, a) == Promote(s.nodes[i], now);
    case EndRound(i, now) =>
      assert NextNode(s, a) == FinishRound(s.nodes[i], s.rounds[i].scan, now);
    case Hear(m, now) =>
      assert NextNode(s, a) == Accept(s.nodes[m.to], Me, m.epoch, now);
    case Release(i) =>
      assert NextNode(s, a) == StepDown(s.nodes[i]);
    case _ =>
  }

  /** One step keeps "at most one master per epoch" if and only if no other master
      already holds the epoch the step brings its node to: a granted takeover
      enters the next epoch, and a master that ends a round having heard a newer
      one enters that one without giving up its role. */
  lemma OneMasterKeptExactly(s: Net, a: Action)
    requires Shaped(s) && Enabled(s, a) && OneMasterPerEpoch(s)
    ensures OneMasterPerEpoch(Apply(s, a)) <==> EntersFreely(s, a)
  {
    var t := Apply(s, a);
    if a.Split? {
      assert forall j, e :: IsMaster(t, j, e) <==> IsMaster(s, j, e);
    } else {
      EpochEnteredIsExact(s, a);
      OneNodeChanged(s, t.nodes, Actor(a), NextNode(s, a));
      var i, n' := Actor(a), NextNode(s, a);
      if EpochEntered(s, a).None? && n'.role == Master {
        assert IsMaster(s, i, n'.epoch);
      }
    }
  }

  lemma OneNodeChanged(s: Net, nodes: map<Id, Node>, i: Id, n: Node)
    requires OneMasterPerEpoch(s) && i in s.nodes && nodes == s.nodes[i := n]
    ensures OneMasterPerEpoch(s.(nodes := nodes)) <==>
            (n.role == Master ==> forall j :: IsMaster(s, j, n.epoch) ==> j == i)
    ensures forall t: Net :: t.nodes == nodes ==> (OneMasterPerEpoch(t) <==> OneMasterPerEpoch(s.(nodes := nodes)))
  {
    var t := s.(nodes := nodes);
    assert forall j, e :: j != i ==> (IsMaster(t, j, e) <==> IsMaster(s, j, e));
    if n.role == Master {
      assert IsMaster(t, i, n.epoch);
    }
    forall u: Net | u.nodes == nodes ensures OneMasterPerEpoch(u) <==> OneMasterPerEpoch(t) {
      assert forall j, e :: IsMaster(u, j, e) <==> IsMaster(t, j, e);
    }
  }

  ghost predicate AlwaysOneMaster(s: Net, acts: seq<Action>)
    requires Shaped(s) && Runs(s, acts)
    decreases |acts|
  {
    OneMasterPerEpoch(s) && (acts != [] ==> (StepKeepsShape(s, acts[0]); AlwaysOneMaster(Apply(s, acts[0]), acts[1..])))
  }

  ghost predicate AlwaysEntersFreely(s: Net, acts: seq<Action>)
    requires Shaped(s) && Runs(s, acts)
    decreases |acts|
  {
    acts != [] ==>
      EntersFreely(s, acts[0]) && (StepKeepsShape(s, acts[0]); AlwaysEntersFreely(Apply(s, acts[0]), acts[1..]))
  }

  /** A whole run has one master per epoch throughout if and only if every step of
      it enters its epoch freely. */
  lemma {:induction false} OneMasterExactlyOverRuns(s: Net, acts: seq<Action>)
    requires Shaped(s) && Runs(s, acts) && OneMasterPerEpoch(s)
    ensures AlwaysOneMaster(s, acts) <==> AlwaysEntersFreely(s, acts)
    decreases |acts|
  {
    if acts != [] {
      OneMasterKeptExactly(s, acts[0]);
      StepKeepsShape(s, acts[0]);
      if OneMasterPerEpoch(Apply(s, acts[0])) {
        OneMasterExactlyOverRuns(Apply(s, acts[0]), acts[1..]);
      }
    }
  }

  // ---------------------------------------------------------------------------
  // A master that names itself: when it survives
  // ---------------------------------------------------------------------------

  ghost predicate MastersNameThemselves(s: Net) {
    forall i :: i in s.nodes && s.nodes[i].role == Master ==> s.nodes[i].currentMaster == Me
  }

  /** "A master's `currentMaster` is me" survives every step except the end of a
      round in which a node that is itself master heard another one. */
  lemma SelfNamingKeptExactly(s: Net, a: Action)
    requires Shaped(s) && Enabled(s, a) && MastersNameThemselves(s)
    ensures MastersNameThemselves(Apply(s, a)) <==>
            !(a.EndRound? && s.nodes[a.i].role == Master && s.rounds[a.i].scan.found.Some?)
  {
    hide Apply, NextNode, NextRound, Shaped, Enabled;
    StepKeepsShape(s, a);
    if a.Split? {
      SplitChangesNobody(s, a);
    } else {
      EffectOnNodes(s, a);
      SelfNamingOfActor(s, a);
      RestNameThemselves(s, Actor(a), NextNode(s, a));
    }
  }

  lemma SelfNamingOfActor(s: Net, a: Action)
    requires Shaped(s) && Enabled(s, a) && MastersNameThemselves(s) && !a.Split?
    ensures (NextNode(s, a).role == Master ==> NextNode(s, a).currentMaster == Me) <==>
            !(a.EndRound? && s.nodes[a.i].role == Master && s.rounds[a.i].scan.found.Some?)
  {
    hide ShapedRound, HasQuorum;
    match a
    case EndRound(i, now) =>
      assert NextNode(s, a) == FinishRound(s.nodes[i], s.rounds[i].scan, now);
    case TakeOver(i, now) =>
      assert NextNode(s, a) == Promote(s.nodes[i], now);
    case Hear(m, now) =>
      assert NextNode(s, a) == Accept(s.nodes[m.to], Me, m.epoch, now);
    case Release(i) =>
      assert NextNode(s, a) == StepDown(s.nodes[i]);
    case Record(i) =>
      assert NextNode(s, a) == s.nodes[i].(peers := NextNode(s, a).peers);
    case Fail(i) =>
      assert NextNode(s, a) == s.nodes[i].(peers := NextNode(s, a).peers);
    case _ =>
  }

  lemma RestNameThemselves(s: Net, i: Id, n: Node)
    requires MastersNameThemselves(s) && i in s.nodes
    ensures forall t: Net :: t.nodes == s.nodes[i := n] ==>
              (MastersNameThemselves(t) <==> (n.role == Master ==> n.currentMaster == Me))
  {
    forall t: Net | t.nodes == s.nodes[i := n]
      ensures MastersNameThemselves(t) <==> (n.role == Master ==> n.currentMaster == Me)
    {
      assert i in t.nodes && t.nodes[i] == n;
    }
  }
}
