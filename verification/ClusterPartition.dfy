/** What the quorum rule buys once the network is split in two. */
module ClusterPartition {
  import opened Wrappers
  import opened ClusterNode
  import opened ClusterNet
  import opened ClusterEpochs

  /** Nothing in a node's current round came from across the split. */
  ghost predicate RoundIsLocal(s: Net, i: Id)
    requires Shaped(s) && i in s.nodes
  {
    var r := s.rounds[i];
    r.Pinging? ==>
      && (r.hand.Some? ==> Reaches(s, i, r.hand.value.peer))
      && (r.scan.found.Some? ==> Reaches(s, i, r.scan.found.value))
  }

  /** Every peer across the split, except those in `pending`, is marked offline. */
  ghost predicate FarPeersOffline(s: Net, i: Id, pending: seq<Id>)
    requires Shaped(s) && i in s.nodes
  {
    forall p :: p in s.nodes[i].peers && !Reaches(s, i, p) && p !in pending ==> !s.nodes[i].peers[p].online
  }

  /** In a round begun since the split. */
  ghost predicate Clearing(s: Net, i: Id)
    requires Shaped(s) && i in s.nodes
  {
    s.rounds[i].Pinging? && RoundIsLocal(s, i) && FarPeersOffline(s, i, s.rounds[i].todo)
  }

  /** Has completed a round begun since the split. */
  ghost predicate Clear(s: Net, i: Id)
    requires Shaped(s) && i in s.nodes
  {
    RoundIsLocal(s, i) && FarPeersOffline(s, i, [])
  }

  lemma OthersAreUntouched(s: Net, a: Action, i: Id)
    requires Shaped(s) && Enabled(s, a) && s.split.Some? && i in s.nodes && (a.Split? || i != Actor(a))
    ensures Shaped(Apply(s, a)) && i in Apply(s, a).nodes
    ensures Apply(s, a).nodes[i] == s.nodes[i] && Apply(s, a).rounds[i] == s.rounds[i]
    ensures Apply(s, a).split == s.split
  {
    hide NextNode, NextRound, Grants;
    StepKeepsShape(s, a);
  }

  /** The far peers' marks and the round contents after the actor's own step,
      stated against the state before it. */
  lemma ActorStep(s: Net, a: Action, pending: seq<Id>)
    requires Shaped(s) && Enabled(s, a) && s.split.Some? && !a.Split?
    requires RoundIsLocal(s, Actor(a)) && FarPeersOffline(s, Actor(a), pending)
    ensures var i, r := Actor(a), NextRound(s, a);
            r.Pinging? ==>
              && (r.hand.Some? ==> Reaches(s, i, r.hand.value.peer))
              && (r.scan.found.Some? ==> Reaches(s, i, r.scan.found.value))
    ensures var i, n := Actor(a), NextNode(s, a);
            forall p :: p in n.peers && !Reaches(s, i, p)
                        && (p !in pending || (a.Fail? && p == s.rounds[i].todo[0])) ==>
              !n.peers[p].online
  {
  }

  lemma ClearStaysClear(s: Net, a: Action, i: Id)
    requires Shaped(s) && Enabled(s, a) && s.split.Some? && i in s.nodes && Clear(s, i)
    ensures Shaped(Apply(s, a)) && i in Apply(s, a).nodes && Apply(s, a).split == s.split
    ensures Clear(Apply(s, a), i)
  {
    hide NextNode, NextRound, Apply, Enabled, ShapedRound;
    StepKeepsShape(s, a);
    if a.Split? || i != Actor(a) {
      OthersAreUntouched(s, a, i);
    } else {
      ActorStep(s, a, []);
      EffectOnNodes(s, a);
    }
  }

  lemma BeginIsClearing(s: Net, a: Action)
    requires Shaped(s) && Enabled(s, a) && s.split.Some? && a.BeginRound?
    ensures Shaped(Apply(s, a)) && a.i in Apply(s, a).nodes && Apply(s, a).split == s.split
    ensures Clearing(Apply(s, a), a.i)
  {
    StepKeepsShape(s, a);
  }

  /** A round begun since the split after the actor's own step: every far peer it no
      longer has to ask is offline, so when nothing is left to ask they all are. */
  lemma ClearingActor(s: Net, a: Action)
    requires Shaped(s) && Enabled(s, a) && s.split.Some? && !a.Split? && Clearing(s, Actor(a))
    ensures var n, r := NextNode(s, a), NextRound(s, a);
            && (a.EndRound? <==> r.Resting?)
            && (r.Pinging? && r.hand.Some? ==> Reaches(s, Actor(a), r.hand.value.peer))
            && (r.Pinging? && r.scan.found.Some? ==> Reaches(s, Actor(a), r.scan.found.value))
            && forall p :: p in n.peers && !Reaches(s, Actor(a), p) && (r.Pinging? ==> p !in r.todo) ==>
                 !n.peers[p].online
  {
  }

  lemma ClearingGoesOn(s: Net, a: Action, i: Id)
    requires Shaped(s) && Enabled(s, a) && s.split.Some? && i in s.nodes && Clearing(s, i)
    ensures Shaped(Apply(s, a)) && i in Apply(s, a).nodes && Apply(s, a).split == s.split
    ensures if a.EndRound? && a.i == i then Clear(Apply(s, a), i) else Clearing(Apply(s, a), i)
  {
    hide NextNode, NextRound, Apply, Enabled, ShapedRound;
    StepKeepsShape(s, a);
    if a.Split? || i != Actor(a) {
      OthersAreUntouched(s, a, i);
    } else {
      ClearingActor(s, a);
      EffectOnNodes(s, a);
    }
  }

  // ---------------------------------------------------------------------------
  // Rounds completed since the split
  // ---------------------------------------------------------------------------

  ghost predicate EndsRound(i: Id, acts: seq<Action>) {
    exists q :: 0 <= q < |acts| && acts[q].EndRound? && acts[q].i == i
  }

  ghost predicate CompletesRound(i: Id, acts: seq<Action>) {
    exists p :: 0 <= p < |acts| && acts[p].BeginRound? && acts[p].i == i && EndsRound(i, acts[p + 1..])
  }

  lemma {:induction false} StaysClear(s: Net, acts: seq<Action>, i: Id)
    requires Shaped(s) && Runs(s, acts) && s.split.Some? && i in s.nodes && Clear(s, i)
    ensures Clear(After(s, acts), i) && After(s, acts).split == s.split
    decreases |acts|
  {
    if acts != [] {
      ClearStaysClear(s, acts[0], i);
      StaysClear(Apply(s, acts[0]), acts[1..], i);
    }
  }

  lemma {:induction false} ClearingEndsClear(s: Net, acts: seq<Action>, i: Id)
    requires Shaped(s) && Runs(s, acts) && s.split.Some? && i in s.nodes && Clearing(s, i)
    requires EndsRound(i, acts)
    ensures Clear(After(s, acts), i)
    decreases |acts|
  {
    var q :| 0 <= q < |acts| && acts[q].EndRound? && acts[q].i == i;
    ClearingGoesOn(s, acts[0], i);
    if Clear(Apply(s, acts[0]), i) {
      StaysClear(Apply(s, acts[0]), acts[1..], i);
    } else {
      assert q > 0 && acts[1..][q - 1] == acts[q];
      ClearingEndsClear(Apply(s, acts[0]), acts[1..], i);
    }
  }

  lemma {:induction false} SplitIsForGood(s: Net, acts: seq<Action>)
    requires Shaped(s) && Runs(s, acts) && s.split.Some?
    ensures After(s, acts).split == s.split
    decreases |acts|
  {
    if acts != [] {
      StepKeepsShape(s, acts[0]);
      SplitIsForGood(Apply(s, acts[0]), acts[1..]);
    }
  }

  lemma CutRun(s: Net, acts: seq<Action>, p: nat)
    requires Shaped(s) && Runs(s, acts) && p < |acts|
    ensures Runs(s, acts[..p])
    ensures var t := After(s, acts[..p]);
            && Enabled(t, acts[p])
            && Shaped(Apply(t, acts[p]))
            && Runs(Apply(t, acts[p]), acts[p + 1..])
            && After(s, acts) == After(Apply(t, acts[p]), acts[p + 1..])
  {
    assert acts == acts[..p] + acts[p..];
    RunsSplit(s, acts[..p], acts[p..]);
    var t := After(s, acts[..p]);
    assert acts[p..][0] == acts[p] && acts[p..][1..] == acts[p + 1..];
    StepKeepsShape(t, acts[p]);
  }

  /** A round begun and ended after the split leaves a node without a single far
      peer marked online, for good. */
  lemma CompletedRoundClears(s: Net, acts: seq<Action>, i: Id)
    requires Shaped(s) && Runs(s, acts) && s.split.Some? && i in s.nodes
    requires CompletesRound(i, acts)
    ensures Clear(After(s, acts), i)
  {
    var p :| 0 <= p < |acts| && acts[p].BeginRound? && acts[p].i == i && EndsRound(i, acts[p + 1..]);
    CutRun(s, acts, p);
    SplitIsForGood(s, acts[..p]);
    var t := After(s, acts[..p]);
    BeginIsClearing(t, acts[p]);
    ClearingEndsClear(Apply(t, acts[p]), acts[p + 1..], i);
  }

  // ---------------------------------------------------------------------------
  // A side without a majority
  // ---------------------------------------------------------------------------

  /** `side` is one of the two halves, and not a strict majority of at least three. */
  ghost predicate Minority(s: Net, side: set<Id>) {
    && s.split.Some?
    && |s.nodes| >= 3
    && 2 * |side| <= |s.nodes|
    && (side == s.nodes.Keys * s.split.value || side == s.nodes.Keys - s.split.value)
  }

  ghost predicate AllClear(s: Net) {
    Shaped(s) && forall i :: i in s.nodes ==> Clear(s, i)
  }

  /** At least one half is such a side. */
  lemma SomeSideIsMinority(s: Net)
    requires s.split.Some? && |s.nodes| >= 3
    ensures Minority(s, s.nodes.Keys * s.split.value) || Minority(s, s.nodes.Keys - s.split.value)
  {
  }

  lemma SubsetIsSmaller(small: set<Id>, big: set<Id>)
    requires small <= big
    ensures |small| <= |big|
  {
    assert big == small + (big - small);
  }

  /** The peers marked online on the node's own side, and across the split. */
  ghost function Near(s: Net, i: Id): set<Id>
    requires Shaped(s) && i in s.nodes
  {
    set p | p in Online(s.nodes[i]) && Reaches(s, i, p)
  }

  ghost function Stale(s: Net, i: Id): set<Id>
    requires Shaped(s) && i in s.nodes
  {
    set p | p in Online(s.nodes[i]) && !Reaches(s, i, p)
  }

  lemma QuorumCountsStaleMarks(s: Net, i: Id)
    requires Shaped(s) && |s.nodes| >= 3 && i in s.nodes
    ensures HasQuorum(s.nodes[i]) <==> 2 * (1 + |Near(s, i)| + |Stale(s, i)|) > |s.nodes|
  {
    var n := s.nodes[i];
    assert n.peers.Keys == s.nodes.Keys - {i};
    assert |n.peers| == |n.peers.Keys| == |s.nodes.Keys| - 1;
    assert Online(n) == Near(s, i) + Stale(s, i);
  }

  /** On a side without a majority a takeover is granted if and only if the marks left
      over from across the split outnumber what the node's own side is short of a
      majority; so a grant there takes at least one stale mark. */
  lemma MinorityQuorumExactly(s: Net, side: set<Id>, i: Id)
    requires Shaped(s) && Minority(s, side) && i in side
    ensures HasQuorum(s.nodes[i]) <==> 2 * |Stale(s, i)| > |s.nodes| - 2 * (1 + |Near(s, i)|)
    ensures 1 + |Near(s, i)| <= |side|
    ensures HasQuorum(s.nodes[i]) ==> Stale(s, i) != {}
  {
    QuorumCountsStaleMarks(s, i);
    assert s.nodes[i].peers.Keys == s.nodes.Keys - {i};
    SubsetIsSmaller(Near(s, i), side - {i});
  }

  /** A node that has completed a round since the split has no stale mark. */
  lemma MinorityHasNoQuorum(s: Net, side: set<Id>, i: Id)
    requires Shaped(s) && Minority(s, side) && i in side && Clear(s, i)
    ensures !HasQuorum(s.nodes[i])
  {
    MinorityQuorumExactly(s, side, i);
    assert Stale(s, i) == {};
  }

  lemma {:induction false} StaysAllClear(s: Net, acts: seq<Action>)
    requires AllClear(s) && Runs(s, acts) && s.split.Some?
    ensures AllClear(After(s, acts)) && After(s, acts).split == s.split
  {
    SplitIsForGood(s, acts);
    forall i | i in After(s, acts).nodes ensures Clear(After(s, acts), i) {
      StaysClear(s, acts, i);
    }
  }

  ghost predicate Covered(side: set<Id>, x: Net, epoch: int)
    requires side <= x.nodes.Keys
  {
    exists j {:trigger x.nodes[j]} :: j in side && epoch <= x.nodes[j].epoch
  }

  /** No node of `side` is master in `y` that was not master in `x`, and none holds
      an epoch above the highest the side held in `x`. */
  ghost predicate NoRise(side: set<Id>, x: Net, y: Net) {
    && side <= x.nodes.Keys && side <= y.nodes.Keys
    && (forall i {:trigger y.nodes[i]} :: i in side && y.nodes[i].role == Master ==> x.nodes[i].role == Master)
    && (forall i {:trigger y.nodes[i]} :: i in side ==> Covered(side, x, y.nodes[i].epoch))
  }

  /** The takeovers between `x` and `y` were all made by nodes outside `side`. */
  ghost predicate ClaimsElsewhere(side: set<Id>, x: Net, y: Net) {
    && |x.claims| <= |y.claims|
    && y.claims[..|x.claims|] == x.claims
    && forall k :: |x.claims| <= k < |y.claims| ==> y.claims[k].node !in side
  }

  ghost predicate Quiet(side: set<Id>, x: Net, y: Net) {
    NoRise(side, x, y) && ClaimsElsewhere(side, x, y)
  }

  lemma CoverIsTransitive(side: set<Id>, x: Net, y: Net, epoch: int)
    requires NoRise(side, x, y) && Covered(side, y, epoch)
    ensures Covered(side, x, epoch)
  {
  }

  lemma NoRiseIsTransitive(side: set<Id>, x: Net, y: Net, z: Net)
    requires NoRise(side, x, y) && NoRise(side, y, z)
    ensures NoRise(side, x, z)
  {
    forall i | i in side
      ensures Covered(side, x, z.nodes[i].epoch)
      ensures z.nodes[i].role == Master ==> x.nodes[i].role == Master
    {
      CoverIsTransitive(side, x, y, z.nodes[i].epoch);
    }
  }

  lemma ClaimsElsewhereIsTransitive(side: set<Id>, x: Net, y: Net, z: Net)
    requires ClaimsElsewhere(side, x, y) && ClaimsElsewhere(side, y, z)
    ensures ClaimsElsewhere(side, x, z)
  {
  }

  lemma EndingLocalRound(s: Net, a: Action, side: set<Id>)
    requires Shaped(s) && Enabled(s, a) && Minority(s, side) && a.EndRound? && a.i in side
    requires RoundIsLocal(s, a.i) && RoundBounded(s, s.rounds[a.i])
    ensures Covered(side, s, NextNode(s, a).epoch)
  {
  }

  lemma HearingLocalClaim(s: Net, a: Action, side: set<Id>)
    requires Shaped(s) && Enabled(s, a) && Minority(s, side) && a.Hear? && a.m.to in side
    requires a.m.epoch <= s.nodes[a.m.from].epoch
    ensures Covered(side, s, NextNode(s, a).epoch)
  {
  }

  /** Only a granted takeover, the end of a round and a message change an epoch or
      make a master. */
  lemma OtherStepsKeepEpochAndRole(s: Net, a: Action)
    requires Shaped(s) && Enabled(s, a) && !a.Split? && !Grants(s, a)
    ensures NextNode(s, a).role == Master ==> s.nodes[Actor(a)].role == Master
    ensures !a.EndRound? && !a.Hear? ==> NextNode(s, a).epoch == s.nodes[Actor(a)].epoch
  {
  }

  lemma MinorityActor(s: Net, a: Action, side: set<Id>)
    requires Bounded(s) && AllClear(s) && Minority(s, side) && Enabled(s, a) && !a.Split? && Actor(a) in side
    ensures !Grants(s, a)
    ensures NextNode(s, a).role == Master ==> s.nodes[Actor(a)].role == Master
    ensures Covered(side, s, NextNode(s, a).epoch)
  {
    var i := Actor(a);
    MinorityHasNoQuorum(s, side, i);
    OtherStepsKeepEpochAndRole(s, a);
    assert Clear(s, i);
    if a.EndRound? {
      EndingLocalRound(s, a, side);
    } else if a.Hear? {
      HearingLocalClaim(s, a, side);
    }
  }

  lemma MinorityNode(s: Net, a: Action, side: set<Id>, i: Id)
    requires Bounded(s) && AllClear(s) && Minority(s, side) && Enabled(s, a) && i in side
    ensures Shaped(Apply(s, a)) && i in Apply(s, a).nodes
    ensures Apply(s, a).nodes[i].role == Master ==> s.nodes[i].role == Master
    ensures Covered(side, s, Apply(s, a).nodes[i].epoch)
  {
    hide NextNode, NextRound, Grants, Enabled, Clear, Bounded;
    StepKeepsShape(s, a);
    if a.Split? || i != Actor(a) {
      OthersAreUntouched(s, a, i);
      assert Apply(s, a).nodes[i].epoch <= s.nodes[i].epoch;
    } else {
      MinorityActor(s, a, side);
      assert Apply(s, a).nodes[i] == NextNode(s, a);
    }
  }

  lemma MinorityClaimsNothing(s: Net, a: Action, side: set<Id>)
    requires AllClear(s) && Minority(s, side) && Enabled(s, a)
    ensures ClaimsElsewhere(side, s, Apply(s, a))
  {
    hide NextNode, NextRound, Enabled, Clear, HasQuorum;
    if Grants(s, a) && a.i in side {
      MinorityHasNoQuorum(s, side, a.i);
    }
  }

  /** On a side without a majority a node's own completed round is enough: from then on
      it claims no epoch, whatever the other nodes have or have not noticed. */
  lemma {:induction false} NodeStopsClaiming(s: Net, acts: seq<Action>, side: set<Id>, i: Id)
    requires Shaped(s) && Runs(s, acts) && Minority(s, side) && i in side && Clear(s, i)
    ensures ClaimsElsewhere({i}, s, After(s, acts))
    decreases |acts|
  {
    hide Enabled, Apply, Clear, Shaped, Minority, Grants;
    MinorityIsInside(s, side);
    if acts == [] {
      EmptyRun(s);
    } else {
      RunHead(s, acts);
      var t := Apply(s, acts[0]);
      MinorityIsSplit(s, side);
      ClearStaysClear(s, acts[0], i);
      MinorityHasNoQuorum(s, side, i);
      ClaimsOfOthers(s, acts[0], i);
      MinorityDependsOnNodes(s, t, side);
      NodeStopsClaiming(t, acts[1..], side, i);
      ClaimsElsewhereIsTransitive({i}, s, t, After(s, acts));
    }
  }

  lemma MinorityIsSplit(s: Net, side: set<Id>)
    requires Minority(s, side)
    ensures s.split.Some?
  {
  }

  lemma MinorityDependsOnNodes(s: Net, t: Net, side: set<Id>)
    requires Minority(s, side) && t.split == s.split && t.nodes.Keys == s.nodes.Keys
    ensures Minority(t, side)
  {
    assert |t.nodes| == |t.nodes.Keys| == |s.nodes|;
  }

  lemma ClaimsOfOthers(s: Net, a: Action, i: Id)
    requires Shaped(s) && Enabled(s, a) && i in s.nodes && !HasQuorum(s.nodes[i])
    ensures ClaimsElsewhere({i}, s, Apply(s, a))
  {
    hide NextNode, NextRound, HasQuorum, ShapedRound;
  }

  lemma AllClearIsShaped(s: Net)
    requires AllClear(s)
    ensures Shaped(s)
  {
  }

  lemma MinorityIsInside(s: Net, side: set<Id>)
    requires Minority(s, side)
    ensures side <= s.nodes.Keys
  {
  }

  lemma MinorityStep(s: Net, a: Action, side: set<Id>)
    requires Bounded(s) && AllClear(s) && Minority(s, side) && Enabled(s, a)
    ensures Quiet(side, s, Apply(s, a))
  {
    hide Apply, Enabled, Bounded, ClaimsElsewhere, Shaped, Covered, Minority, AllClear;
    AllClearIsShaped(s);
    StepKeepsShape(s, a);
    MinorityIsInside(s, side);
    MinorityClaimsNothing(s, a, side);
    forall i | i in side
      ensures Apply(s, a).nodes[i].role == Master ==> s.nodes[i].role == Master
      ensures Covered(side, s, Apply(s, a).nodes[i].epoch)
    {
      MinorityNode(s, a, side, i);
    }
  }

  lemma StepStaysAllClear(s: Net, a: Action)
    requires AllClear(s) && Enabled(s, a) && s.split.Some?
    ensures AllClear(Apply(s, a)) && Apply(s, a).split == s.split && Apply(s, a).nodes.Keys == s.nodes.Keys
  {
    StepKeepsShape(s, a);
    forall i | i in Apply(s, a).nodes ensures Clear(Apply(s, a), i) {
      ClearStaysClear(s, a, i);
    }
  }

  lemma {:induction false} MinorityRun(s: Net, acts: seq<Action>, side: set<Id>)
    requires Bounded(s) && AllClear(s) && Minority(s, side) && Runs(s, acts)
    ensures Quiet(side, s, After(s, acts))
    decreases |acts|
  {
    hide Enabled, Apply, Runs, After, Clear, NoRise, ClaimsElsewhere;
    if acts == [] {
      EmptyRun(s);
      StillnessIsQuiet(s, side);
    } else {
      RunHead(s, acts);
      var t := Apply(s, acts[0]);
      StepKeepsBounds(s, acts[0]);
      StepStaysAllClear(s, acts[0]);
      MinorityStep(s, acts[0], side);
      assert |t.nodes| == |t.nodes.Keys| == |s.nodes|;
      MinorityRun(t, acts[1..], side);
      NoRiseIsTransitive(side, s, t, After(s, acts));
      ClaimsElsewhereIsTransitive(side, s, t, After(s, acts));
    }
  }

  lemma StillnessIsQuiet(s: Net, side: set<Id>)
    requires side <= s.nodes.Keys
    ensures Quiet(side, s, s)
  {
  }

  // ---------------------------------------------------------------------------
  // The theorem
  // ---------------------------------------------------------------------------

  /** `x` is reached by a run of fresh managers that was split along `side` and in
      which every node has since begun and completed a ping round. */
  ghost predicate SettledAfterSplit(s: Net, before: seq<Action>, side: set<Id>, settling: seq<Action>, x: Net) {
    && Init(s)
    && Runs(s, before)
    && var a := After(s, before);
       && Enabled(a, Split(side))
       && Shaped(Apply(a, Split(side)))
       && Runs(Apply(a, Split(side)), settling)
       && x == After(Apply(a, Split(side)), settling)
       && forall i :: i in s.nodes ==> CompletesRound(i, settling)
  }

  lemma SettledIsClear(s: Net, before: seq<Action>, side: set<Id>, settling: seq<Action>, x: Net)
    requires SettledAfterSplit(s, before, side, settling, x)
    ensures Bounded(x) && AllClear(x) && x.split == Some(side) && x.nodes.Keys == s.nodes.Keys
  {
    var a := After(s, before);
    InitHoldsInv(s);
    RunKeepsInv(s, before);
    StepKeepsBounds(a, Split(side));
    var b := Apply(a, Split(side));
    RunKeepsBounds(b, settling);
    SplitIsForGood(b, settling);
    forall i | i in x.nodes ensures Clear(x, i) {
      CompletedRoundClears(b, settling, i);
    }
  }

  lemma {:induction false} RunKeepsBounds(s: Net, acts: seq<Action>)
    requires Bounded(s) && Runs(s, acts)
    ensures Bounded(After(s, acts))
    decreases |acts|
  {
    if acts != [] {
      StepKeepsBounds(s, acts[0]);
      RunKeepsBounds(Apply(s, acts[0]), acts[1..]);
    }
  }

  /** Partition safety. Take any run of at least three fresh managers that is split
      in two and goes on until every node has completed one ping round begun after
      the split. Between any two later moments, a half that is not a strict majority
      claims no epoch, gains no master, and never sees an epoch above the highest it
      already held. At least one half is like that, so from then on takeovers happen
      on one side only. */
  lemma PartitionSafety(s: Net, before: seq<Action>, side: set<Id>, settling: seq<Action>, x: Net,
                        earlier: seq<Action>, later: seq<Action>)
    requires SettledAfterSplit(s, before, side, settling, x) && |s.nodes| >= 3
    requires Runs(x, earlier) && Runs(After(x, earlier), later)
    ensures var here, there := s.nodes.Keys * side, s.nodes.Keys - side;
            var y := After(x, earlier);
            && (2 * |here| <= |s.nodes| ==> Quiet(here, y, After(y, later)))
            && (2 * |there| <= |s.nodes| ==> Quiet(there, y, After(y, later)))
            && (2 * |here| <= |s.nodes| || 2 * |there| <= |s.nodes|)
  {
    hide Quiet, CompletesRound, Clear, Bounded, AllClear;
    SettledIsClear(s, before, side, settling, x);
    PartitionSafetyOnceClear(x, side, earlier, later);
  }

  lemma PartitionSafetyOnceClear(x: Net, side: set<Id>, earlier: seq<Action>, later: seq<Action>)
    requires Bounded(x) && AllClear(x) && x.split == Some(side) && |x.nodes| >= 3
    requires Runs(x, earlier) && Runs(After(x, earlier), later)
    ensures var here, there := x.nodes.Keys * side, x.nodes.Keys - side;
            var y := After(x, earlier);
            && (2 * |here| <= |x.nodes| ==> Quiet(here, y, After(y, later)))
            && (2 * |there| <= |x.nodes| ==> Quiet(there, y, After(y, later)))
            && (2 * |here| <= |x.nodes| || 2 * |there| <= |x.nodes|)
  {
    RunKeepsBounds(x, earlier);
    StaysAllClear(x, earlier);
    var y := After(x, earlier);
    assert |y.nodes| == |y.nodes.Keys| == |x.nodes.Keys| == |x.nodes|;
    SomeSideIsMinority(y);
    if 2 * |x.nodes.Keys * side| <= |x.nodes| {
      MinorityRun(y, later, x.nodes.Keys * side);
    }
    if 2 * |x.nodes.Keys - side| <= |x.nodes| {
      MinorityRun(y, later, x.nodes.Keys - side);
    }
  }
}
