/** A split network can always settle: from any state of any run of the program every
    node can complete a ping round without a call from outside, so partition safety has
    something to say of every split. */
module ClusterSettling {
  import opened Wrappers
  import opened ClusterNode
  import opened ClusterNet
  import opened ClusterPartition
  import opened ClusterTicks

  lemma {:induction false} Listing(peers: set<Id>) returns (order: seq<Id>)
    ensures forall p :: p in order <==> p in peers
    ensures forall a, b :: 0 <= a < b < |order| ==> order[a] != order[b]
    decreases peers
  {
    if peers == {} {
      order := [];
    } else {
      var p :| p in peers;
      order := Listing(peers - {p});
      order := order + [p];
    }
  }

  lemma EndsLater(u: seq<Action>, v: seq<Action>, i: Id)
    requires EndsRound(i, v)
    ensures EndsRound(i, u + v)
  {
    var q :| 0 <= q < |v| && v[q].EndRound? && v[q].i == i;
    assert (u + v)[|u| + q] == v[q];
  }

  lemma EndsSooner(u: seq<Action>, v: seq<Action>, i: Id)
    requires EndsRound(i, u)
    ensures EndsRound(i, u + v)
  {
    var q :| 0 <= q < |u| && u[q].EndRound? && u[q].i == i;
    assert (u + v)[q] == u[q];
  }

  lemma CompletesLonger(u: seq<Action>, v: seq<Action>, w: seq<Action>, i: Id)
    requires CompletesRound(i, v)
    ensures CompletesRound(i, u + v + w)
  {
    hide EndsRound;
    var p :| 0 <= p < |v| && v[p].BeginRound? && v[p].i == i && EndsRound(i, v[p + 1..]);
    assert (u + v + w)[|u| + p] == v[p] && (u + v + w)[|u| + p + 1..] == v[p + 1..] + w;
    EndsSooner(v[p + 1..], w, i);
  }

  lemma {:induction false} TraceJoins(ms: seq<Move>, ns: seq<Move>)
    ensures Trace(ms + ns) == Trace(ms) + Trace(ns)
  {
    if ms == [] {
      assert ms + ns == ns;
    } else {
      assert (ms + ns)[0] == ms[0] && (ms + ns)[1..] == ms[1..] + ns;
      TraceJoins(ms[1..], ns);
    }
  }

  lemma TraceOf(m: Move)
    ensures Trace([m]) == if Acting(m).Some? then [Acting(m).value] else []
  {
    assert [m][1..] == [];
  }

  /** A run of the program without a call from outside. */
  ghost predicate Leads(t: Cluster, ms: seq<Move>, u: Cluster) {
    Ticking(t) && Ticks(t, ms) && Later(t, ms) == u && Outsiders(ms) == 0
  }

  lemma LeadsOn(t: Cluster, ms: seq<Move>, u: Cluster, ns: seq<Move>, v: Cluster)
    requires Leads(t, ms, u) && Leads(u, ns, v)
    ensures Leads(t, ms + ns, v) && Trace(ms + ns) == Trace(ms) + Trace(ns)
  {
    hide Ticking, Ticks, Later, Outsiders;
    TicksJoin(t, ms, ns);
    TraceJoins(ms, ns);
  }

  lemma LeadsOneMove(t: Cluster, m: Move)
    requires Ticking(t) && Possible(t, m) && !m.Outside?
    ensures Leads(t, [m], Next(t, m)) && Trace([m]) == if Acting(m).Some? then [Acting(m).value] else []
    ensures Ticking(Next(t, m)) && Next(t, m).net.nodes.Keys == t.net.nodes.Keys
  {
    MoveKeepsTicking(t, m);
    hide Ticking, Possible, Next, Ticks, Later, Outsiders;
    OneTick(t, m);
    TraceOf(m);
  }

  /** A node that hears from nobody still ends its round. */
  lemma {:induction false} FinishAlone(t: Cluster, i: Id) returns (ms: seq<Move>, u: Cluster)
    requires Ticking(t) && i in t.net.nodes && i in t.net.rounds && t.net.rounds[i].Pinging?
    ensures Leads(t, ms, u) && Ticking(u) && u.net.nodes.Keys == t.net.nodes.Keys
    ensures i in u.phases && u.phases[i] == Due && EndsRound(i, Trace(ms))
    decreases |t.net.rounds[i].todo|
  {
    hide Possible, Next, Leads, RecordFailure, ClusterNode.FinishRound;
    if t.net.rounds[i].todo == [] {
      var m := Do(EndRound(i, 0));
      EndEffect(t, i, 0);
      LeadsOneMove(t, m);
      ms, u := [m], Next(t, m);
      assert Trace(ms)[0] == EndRound(i, 0);
    } else {
      var m := Do(Fail(i));
      SkipEffect(t, i, t.net.rounds[i].todo[0]);
      LeadsOneMove(t, m);
      var v := Next(t, m);
      var rest;
      rest, u := FinishAlone(v, i);
      LeadsOn(t, [m], v, rest, u);
      EndsLater([Fail(i)], Trace(rest), i);
      ms := [m] + rest;
    }
  }

  /** The health check, and the takeover if it fires: then the node is at rest. */
  lemma CheckAlone(t: Cluster, i: Id) returns (ms: seq<Move>, u: Cluster)
    requires Ticking(t) && i in t.phases && t.phases[i] != Idle
    ensures Leads(t, ms, u) && Ticking(u) && u.net.nodes.Keys == t.net.nodes.Keys
    ensures i in u.phases && u.phases[i] == Idle && i in u.net.rounds && u.net.rounds[i].Resting?
  {
    TickingIsShaped(t);
    RestsInItsCheck(t, i);
    hide Possible, Next, Leads, Shaped, MasterLooksDead;
    if t.phases[i] == Firing {
      ms, u := TakeOverAlone(t, i);
    } else {
      var m := Look(i, 0, 0);
      LookEffect(t, i, 0, 0);
      LeadsOneMove(t, m);
      var v := Next(t, m);
      if v.phases[i] == Firing {
        var rest;
        rest, u := TakeOverAlone(v, i);
        LeadsOn(t, [m], v, rest, u);
        ms := [m] + rest;
      } else {
        ms, u := [m], v;
      }
    }
  }

  lemma RestsInItsCheck(t: Cluster, i: Id)
    requires Ticking(t) && i in t.phases && t.phases[i] != Idle
    ensures i in t.net.rounds && t.net.rounds[i].Resting?
  {
  }

  lemma TakeOverAlone(t: Cluster, i: Id) returns (ms: seq<Move>, u: Cluster)
    requires Ticking(t) && i in t.phases && t.phases[i] == Firing
    ensures Leads(t, ms, u) && Ticking(u) && u.net.nodes.Keys == t.net.nodes.Keys
    ensures i in u.phases && u.phases[i] == Idle && i in u.net.rounds && u.net.rounds[i].Resting?
  {
    hide Shaped, Possible, Next, Leads;
    var m := Do(TakeOver(i, 0));
    RestsInItsCheck(t, i);
    TickingIsShaped(t);
    TakeoverEnds(t, i, 0);
    LeadsOneMove(t, m);
    TickingIsShaped(Next(t, m));
    ms, u := [m], Next(t, m);
  }

  /** A resting node begins and completes a round. */
  lemma RoundAlone(t: Cluster, i: Id) returns (ms: seq<Move>, u: Cluster)
    requires Ticking(t) && i in t.phases && i in t.net.rounds && t.phases[i] == Idle && t.net.rounds[i].Resting?
    ensures Leads(t, ms, u) && Ticking(u) && u.net.nodes.Keys == t.net.nodes.Keys && CompletesRound(i, Trace(ms))
  {
    TickingIsShaped(t);
    var order := Listing(t.net.nodes[i].peers.Keys);
    var m := Do(BeginRound(i, order));
    BeginEffect(t, i, order);
    hide Possible, Next, Leads, Shaped, EndsRound, Lists;
    LeadsOneMove(t, m);
    var v := Next(t, m);
    TickingIsShaped(v);
    var rest;
    rest, u := FinishAlone(v, i);
    LeadsOn(t, [m], v, rest, u);
    ms := [m] + rest;
    assert Trace(ms)[0] == BeginRound(i, order) && Trace(ms)[1..] == Trace(rest);
  }

  /** Whatever a node is doing, it can come to rest. */
  lemma ComeToRest(t: Cluster, i: Id) returns (ms: seq<Move>, u: Cluster)
    requires Ticking(t) && i in t.net.nodes
    ensures Leads(t, ms, u) && Ticking(u) && u.net.nodes.Keys == t.net.nodes.Keys
    ensures i in u.phases && i in u.net.rounds && u.phases[i] == Idle && u.net.rounds[i].Resting?
  {
    TickingIsShaped(t);
    PhaseOfRound(t, i);
    hide Leads, Ticking, Shaped, EndsRound;
    if t.net.rounds[i].Pinging? {
      var first, v := FinishAlone(t, i);
      var second;
      second, u := CheckAlone(v, i);
      LeadsOn(t, first, v, second, u);
      ms := first + second;
    } else if t.phases[i] == Idle {
      NothingLeads(t);
      ms, u := [], t;
    } else {
      ms, u := CheckAlone(t, i);
    }
  }

  /** And then complete a new round. */
  lemma RoundFromAnywhere(t: Cluster, i: Id) returns (ms: seq<Move>, u: Cluster)
    requires Ticking(t) && i in t.net.nodes
    ensures Leads(t, ms, u) && Ticking(u) && u.net.nodes.Keys == t.net.nodes.Keys && CompletesRound(i, Trace(ms))
  {
    hide Leads, CompletesRound, Ticking, Trace;
    var first, v := ComeToRest(t, i);
    var second;
    second, u := RoundAlone(v, i);
    LeadsOn(t, first, v, second, u);
    ms := first + second;
    CompletesLonger(Trace(first), Trace(second), [], i);
    assert Trace(first) + Trace(second) + [] == Trace(ms);
  }

  lemma PhaseOfRound(t: Cluster, i: Id)
    requires Ticking(t) && i in t.net.nodes
    ensures i in t.net.rounds && i in t.phases && (t.net.rounds[i].Pinging? ==> t.phases[i] == Idle)
  {
  }

  lemma NothingLeads(t: Cluster)
    requires Ticking(t)
    ensures Leads(t, [], t) && Trace([]) == []
  {
  }

  lemma {:induction false} AllSettle(t: Cluster, waiting: set<Id>) returns (ms: seq<Move>, u: Cluster)
    requires Ticking(t) && waiting <= t.net.nodes.Keys
    ensures Leads(t, ms, u) && forall i :: i in waiting ==> CompletesRound(i, Trace(ms))
    decreases waiting
  {
    hide Leads, Ticking, CompletesRound;
    NothingLeads(t);
    ms, u := [], t;
    if waiting != {} {
      var i :| i in waiting;
      var first, v := RoundFromAnywhere(t, i);
      var others;
      others, u := AllSettle(v, waiting - {i});
      LeadsOn(t, first, v, others, u);
      ms := first + others;
      var f, o := Trace(first), Trace(others);
      assert [] + f + o == Trace(ms) && f + o + [] == Trace(ms);
      CompletesLonger([], f, o, i);
      forall j | j in waiting - {i} ensures CompletesRound(j, Trace(ms)) {
        CompletesLonger(f, o, [], j);
      }
    }
  }

  /** `ms` is a run of the program after a split in which every node completes a round. */
  ghost predicate SettlesBy(t: Cluster, side: set<Id>, ms: seq<Move>)
    requires Ticking(t) && Possible(t, Do(Split(side)))
  {
    && Ticking(Next(t, Do(Split(side)))) && Ticks(Next(t, Do(Split(side))), ms) && Outsiders(ms) == 0
    && forall i :: i in t.net.nodes ==> CompletesRound(i, Trace(ms))
  }

  /** Any state of the program, split along any side, can go on without a call from
      outside until every node has completed a round. */
  lemma SettlingIsAlwaysPossible(t: Cluster, side: set<Id>)
    requires Ticking(t) && t.net.split.None?
    ensures Possible(t, Do(Split(side))) && exists ms :: SettlesBy(t, side, ms)
  {
    SplitEffect(t, side);
    hide Ticking, CompletesRound, Ticks, Outsiders, Next, Later, Possible;
    var u := Next(t, Do(Split(side)));
    var ms, v := AllSettle(u, u.net.nodes.Keys);
    assert SettlesBy(t, side, ms);
  }

  /** And then partition safety applies: the state reached is one of those it is about. */
  lemma SettledRunIsSettled(s: Cluster, before: seq<Move>, side: set<Id>, ms: seq<Move>)
    requires Started(s) && Ticking(s) && Ticks(s, before) && Later(s, before).net.split.None?
    requires Possible(Later(s, before), Do(Split(side))) && SettlesBy(Later(s, before), side, ms)
    ensures SettledAfterSplit(s.net, Trace(before), side, Trace(ms),
                              Later(Next(Later(s, before), Do(Split(side))), ms).net)
  {
    var t := Later(s, before);
    var u := Next(t, Do(Split(side)));
    TicksAreRuns(s, before);
    TicksAreRuns(u, ms);
    TickingIsShaped(t);
    TickingIsShaped(u);
    hide Ticking, CompletesRound, Ticks, Outsiders, Later, Runs, After, Shaped, Trace, Init, Apply;
  }
}
