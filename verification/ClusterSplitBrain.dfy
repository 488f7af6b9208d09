/** Two masters at once: what ends a mastership, why pings do not heal a split brain,
    and when claims alone rule one out. */
module ClusterSplitBrain {
  import opened Wrappers
  import opened ClusterNode
  import opened ClusterNet
  import opened ClusterEpochs

  // ---------------------------------------------------------------------------
  // What ends a mastership
  // ---------------------------------------------------------------------------

  predicate IsBoss(s: Net, i: Id) {
    i in s.nodes && s.nodes[i].role == Master
  }

  /** The node is released, or hears of a newer takeover. */
  ghost predicate Deposes(s: Net, a: Action, i: Id)
    requires i in s.nodes
  {
    a == Release(i) || (a.Hear? && a.m.to == i && a.m.epoch > s.nodes[i].epoch)
  }

  /** A step ends a mastership if and only if it releases the node or delivers it a
      newer takeover message; no ping round does, whatever it finds. */
  lemma MasterEndsExactly(s: Net, a: Action, i: Id)
    requires Shaped(s) && Enabled(s, a) && IsBoss(s, i)
    ensures Shaped(Apply(s, a)) && i in Apply(s, a).nodes
    ensures IsBoss(Apply(s, a), i) <==> !Deposes(s, a, i)
  {
    StepKeepsShape(s, a);
    hide Shaped, Enabled, Apply, NextNode, NextRound, Deposes;
    if a.Split? {
      SplitChangesNobody(s, a);
      BystanderIsNotDeposed(s, a, i);
    } else {
      EffectOnNodes(s, a);
      if Actor(a) == i {
        RoleOfActor(s, a);
      } else {
        BystanderIsNotDeposed(s, a, i);
      }
    }
  }

  lemma BystanderIsNotDeposed(s: Net, a: Action, i: Id)
    requires i in s.nodes && (a.Split? || Actor(a) != i)
    ensures !Deposes(s, a, i)
  {
  }

  lemma RoleOfActor(s: Net, a: Action)
    requires Shaped(s) && Enabled(s, a) && !a.Split? && IsBoss(s, Actor(a))
    ensures NextNode(s, a).role == Master <==> !Deposes(s, a, Actor(a))
  {
  }

  ghost predicate StaysMaster(s: Net, acts: seq<Action>, i: Id)
    requires Shaped(s) && Runs(s, acts)
    decreases |acts|
  {
    IsBoss(s, i) && (acts != [] ==> (StepKeepsShape(s, acts[0]); StaysMaster(Apply(s, acts[0]), acts[1..], i)))
  }

  ghost predicate NeverDeposed(s: Net, acts: seq<Action>, i: Id)
    requires Shaped(s) && Runs(s, acts) && i in s.nodes
    decreases |acts|
  {
    acts != [] ==>
      && !Deposes(s, acts[0], i)
      && (StepKeepsShape(s, acts[0]); NeverDeposed(Apply(s, acts[0]), acts[1..], i))
  }

  /** Over a whole run a master stays master throughout if and only if it is never
      released and never hears of a takeover newer than its epoch at that moment. */
  lemma {:induction false} MasterStaysExactly(s: Net, acts: seq<Action>, i: Id)
    requires Shaped(s) && Runs(s, acts) && IsBoss(s, i)
    ensures StaysMaster(s, acts, i) <==> NeverDeposed(s, acts, i)
    decreases |acts|
  {
    hide Enabled, Apply, Deposes, Shaped;
    if acts != [] {
      RunHead(s, acts);
      MasterEndsExactly(s, acts[0], i);
      if IsBoss(Apply(s, acts[0]), i) {
        MasterStaysExactly(Apply(s, acts[0]), acts[1..], i);
      }
    }
  }

  // ---------------------------------------------------------------------------
  // Pings do not heal a split brain
  // ---------------------------------------------------------------------------

  /** No node has an epoch above `top`. */
  ghost predicate Below(s: Net, top: int) {
    forall i :: i in s.nodes ==> s.nodes[i].epoch <= top
  }

  /** `i` and `j` are both master of the highest epoch there is. */
  ghost predicate Deadlocked(s: Net, i: Id, j: Id, top: int) {
    Bounded(s) && Below(s, top) && i != j && IsMaster(s, i, top) && IsMaster(s, j, top)
  }

  /** Only a granted takeover can pass the highest epoch. */
  lemma StepStaysBelow(s: Net, a: Action, top: int)
    requires Bounded(s) && Enabled(s, a) && Below(s, top) && !Grants(s, a)
    ensures Bounded(Apply(s, a)) && Below(Apply(s, a), top)
  {
    StepKeepsBounds(s, a);
    hide Apply, Shaped, Enabled, NextNode, NextRound, Grants, RoundBounded;
    if a.Split? {
      SplitChangesNobody(s, a);
    } else {
      ActorStaysBelow(s, a, top);
      EffectOnNodes(s, a);
    }
  }

  lemma ActorStaysBelow(s: Net, a: Action, top: int)
    requires Bounded(s) && Enabled(s, a) && Below(s, top) && !Grants(s, a) && !a.Split?
    ensures NextNode(s, a).epoch <= top
  {
    hide ShapedRound, HasQuorum;
    if a.EndRound? {
      assert NextNode(s, a) == FinishRound(s.nodes[a.i], s.rounds[a.i].scan, a.now);
      assert RoundBounded(s, s.rounds[a.i]);
    } else if a.Hear? {
      assert NextNode(s, a) == Accept(s.nodes[a.m.to], Me, a.m.epoch, a.now);
    } else if a.TakeOver? {
      assert NextNode(s, a) == s.nodes[a.i];
    }
  }

  lemma StepStaysDeadlocked(s: Net, a: Action, i: Id, j: Id, top: int)
    requires Deadlocked(s, i, j, top) && Enabled(s, a)
    requires !Grants(s, a) && a != Release(i) && a != Release(j)
    ensures Deadlocked(Apply(s, a), i, j, top)
  {
    StepStaysBelow(s, a, top);
    NotDeposed(s, a, i, top);
    NotDeposed(s, a, j, top);
    MasterEndsExactly(s, a, i);
    MasterEndsExactly(s, a, j);
    EpochsRise(s, a);
    hide Apply, Bounded, Enabled, Grants, Deposes;
  }

  /** Nothing in flight is newer than the highest epoch. */
  lemma NotDeposed(s: Net, a: Action, i: Id, top: int)
    requires Bounded(s) && Below(s, top) && Enabled(s, a) && IsMaster(s, i, top) && a != Release(i)
    ensures !Deposes(s, a, i)
  {
    hide RoundBounded, ShapedRound;
  }

  ghost predicate NothingGranted(s: Net, acts: seq<Action>)
    requires Shaped(s) && Runs(s, acts)
    decreases |acts|
  {
    acts != [] ==>
      !Grants(s, acts[0]) && (StepKeepsShape(s, acts[0]); NothingGranted(Apply(s, acts[0]), acts[1..]))
  }

  /** Two masters of the highest epoch stay masters of that one epoch for good: over
      every run of pings, messages, releases of other nodes and refused takeovers. */
  lemma {:induction false} SplitBrainStays(s: Net, acts: seq<Action>, i: Id, j: Id, top: int)
    requires Deadlocked(s, i, j, top) && Runs(s, acts) && NothingGranted(s, acts)
    requires Release(i) !in acts && Release(j) !in acts
    ensures Deadlocked(After(s, acts), i, j, top)
    decreases |acts|
  {
    hide Enabled, Apply, Deadlocked, Grants;
    if acts != [] {
      DeadlockIsShaped(s, i, j, top);
      RunHead(s, acts);
      StepStaysDeadlocked(s, acts[0], i, j, top);
      assert acts == [acts[0]] + acts[1..];
      SplitBrainStays(Apply(s, acts[0]), acts[1..], i, j, top);
    }
  }

  lemma DeadlockIsShaped(s: Net, i: Id, j: Id, top: int)
    requires Deadlocked(s, i, j, top)
    ensures Shaped(s)
  {
  }

  /** An older master that finds the newest one by a ping does not step down: it takes
      over the other's epoch, and from then on both are masters of it for good. */
  lemma PingMakesTwoMasters(s: Net, i: Id, j: Id, now: int, acts: seq<Action>)
    requires Bounded(s) && i != j && IsBoss(s, i) && IsBoss(s, j) && Below(s, s.nodes[j].epoch)
    requires Enabled(s, EndRound(i, now)) && s.rounds[i].scan.found.Some?
    requires s.nodes[i].epoch < s.nodes[j].epoch == s.rounds[i].scan.epoch
    requires Shaped(Apply(s, EndRound(i, now)))
    requires Runs(Apply(s, EndRound(i, now)), acts) && NothingGranted(Apply(s, EndRound(i, now)), acts)
    requires Release(i) !in acts && Release(j) !in acts
    ensures Deadlocked(After(Apply(s, EndRound(i, now)), acts), i, j, s.nodes[j].epoch)
  {
    var t, top := Apply(s, EndRound(i, now)), s.nodes[j].epoch;
    EndOfFindingRound(s, i, now);
    assert Deadlocked(t, i, j, top) by {
      StepStaysBelow(s, EndRound(i, now), top);
    }
    SplitBrainStays(t, acts, i, j, top);
  }

  lemma EndOfFindingRound(s: Net, i: Id, now: int)
    requires Shaped(s) && Enabled(s, EndRound(i, now)) && s.rounds[i].scan.found.Some?
    requires s.nodes[i].epoch < s.rounds[i].scan.epoch
    ensures var t := Apply(s, EndRound(i, now));
            && t.nodes.Keys == s.nodes.Keys
            && t.nodes[i].role == s.nodes[i].role && t.nodes[i].epoch == s.rounds[i].scan.epoch
            && (forall k :: k in s.nodes && k != i ==> t.nodes[k] == s.nodes[k])
  {
    var a := EndRound(i, now);
    assert NextNode(s, a) == FinishRound(s.nodes[i], s.rounds[i].scan, now);
    hide Shaped, Enabled, Apply, NextRound;
    StepKeepsShape(s, a);
    EffectOnNodes(s, a);
  }

  // ---------------------------------------------------------------------------
  // One master per epoch, read off the claims
  // ---------------------------------------------------------------------------

  /** A master ends a round in which it found a newer master. */
  ghost predicate AdoptsNewer(s: Net, a: Action)
    requires Shaped(s) && Enabled(s, a)
  {
    && a.EndRound? && s.nodes[a.i].role == Master
    && s.rounds[a.i].scan.found.Some? && s.rounds[a.i].scan.epoch > s.nodes[a.i].epoch
  }

  ghost predicate NoMasterAdopts(s: Net, acts: seq<Action>)
    requires Shaped(s) && Runs(s, acts)
    decreases |acts|
  {
    acts != [] ==>
      !AdoptsNewer(s, acts[0]) && (StepKeepsShape(s, acts[0]); NoMasterAdopts(Apply(s, acts[0]), acts[1..]))
  }

  /** No epoch was claimed by two different nodes. */
  predicate ClaimsDiffer(claims: seq<Claim>) {
    forall k, l :: 0 <= k < |claims| && 0 <= l < |claims| && claims[k].epoch == claims[l].epoch ==>
      claims[k].node == claims[l].node
  }

  /** Every master is master of an epoch it claimed itself. */
  ghost predicate MastersClaimed(s: Net) {
    forall i, e :: IsMaster(s, i, e) ==> Claim(i, e) in s.claims
  }

  lemma MastersOfOwnClaims(s: Net, a: Action)
    requires Shaped(s) && Enabled(s, a) && MastersClaimed(s) && !AdoptsNewer(s, a)
    ensures MastersClaimed(Apply(s, a))
  {
    var t := Apply(s, a);
    ClaimsGrow(s, a);
    StepKeepsShape(s, a);
    hide Shaped, Enabled, Apply, Grants, NextNode, NextRound, EpochEntered, AdoptsNewer;
    if a.Split? {
      SplitChangesNobody(s, a);
      assert forall i, e :: IsMaster(t, i, e) <==> IsMaster(s, i, e);
    } else {
      EpochEnteredIsExact(s, a);
      EnteredIsClaimed(s, a);
      EffectOnNodes(s, a);
      forall i, e | IsMaster(t, i, e) ensures Claim(i, e) in t.claims {
        if i != Actor(a) || IsMaster(s, i, e) {
          assert IsMaster(s, i, e);
          assert Claim(i, e) in s.claims;
        }
      }
    }
  }

  lemma EnteredIsClaimed(s: Net, a: Action)
    requires Shaped(s) && Enabled(s, a) && !AdoptsNewer(s, a) && !a.Split?
    ensures EpochEntered(s, a).Some? ==> Claim(Actor(a), EpochEntered(s, a).value) in Apply(s, a).claims
  {
    hide Shaped, NextNode, NextRound, Announcement, ShapedRound;
    if Grants(s, a) {
      var c := Claim(a.i, s.nodes[a.i].epoch + 1);
      assert Apply(s, a).claims == s.claims + [c];
      assert c in s.claims + [c];
    }
  }

  lemma OwnClaimsAreOne(s: Net)
    requires MastersClaimed(s) && ClaimsDiffer(s.claims)
    ensures OneMasterPerEpoch(s)
  {
    forall i, j, e | IsMaster(s, i, e) && IsMaster(s, j, e) ensures i == j {
      var k :| 0 <= k < |s.claims| && s.claims[k] == Claim(i, e);
      var l :| 0 <= l < |s.claims| && s.claims[l] == Claim(j, e);
    }
  }

  lemma {:induction false} DistinctClaimsFrom(s: Net, acts: seq<Action>)
    requires Shaped(s) && Runs(s, acts) && MastersClaimed(s) && NoMasterAdopts(s, acts)
    requires ClaimsDiffer(After(s, acts).claims)
    ensures s.claims <= After(s, acts).claims && AlwaysOneMaster(s, acts)
    decreases |acts|
  {
    hide Enabled, Apply, Shaped, MastersClaimed, OneMasterPerEpoch;
    if acts != [] {
      RunHead(s, acts);
      MastersOfOwnClaims(s, acts[0]);
      ClaimsGrow(s, acts[0]);
      DistinctClaimsFrom(Apply(s, acts[0]), acts[1..]);
    }
    OwnClaimsAreOne(s);
  }

  /** In a run of fresh managers there is one master per epoch at every moment if no
      two nodes claimed the same epoch and no master's own round found a newer one. */
  lemma DistinctClaimsKeepOneMaster(s: Net, acts: seq<Action>)
    requires Init(s) && Runs(s, acts) && NoMasterAdopts(s, acts)
    requires ClaimsDiffer(After(s, acts).claims)
    ensures AlwaysOneMaster(s, acts)
  {
    assert MastersClaimed(s);
    DistinctClaimsFrom(s, acts);
  }
}
