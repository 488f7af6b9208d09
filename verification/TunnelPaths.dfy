/** One start or switch that runs through while the others stand still: the steps it
    takes among the interleaved ones, and what they leave, which is what the methods of
    the engine promise. With that, a tunnel that is lost and started again. */
module TunnelPaths {
  import opened Wrappers
  import opened TunnelState
  import opened TunnelCalls

  // ---------------------------------------------------------------------------
  // A start
  // ---------------------------------------------------------------------------

  /** The steps of start `c` between entering and clearing; switch `b` announces itself
      where `overtaken` says. */
  function Attempt(c: Call, b: Call, works: bool, overtaken: Overtaken): seq<Action> {
    match (works, overtaken)
    case (true, Never) => [Works(c), Check(c), Commit(c)]
    case (true, BeforeCheck) => [Works(c), Bump(b), Check(c), StopNew(c)]
    case (true, AfterCheck) => [Works(c), Check(c), Bump(b), Commit(c)]
    case (false, Never) => [Fails(c), Check(c), Reset(c)]
    case (false, BeforeCheck) => [Fails(c), Bump(b), Check(c)]
    case (false, AfterCheck) => [Fails(c), Check(c), Bump(b), Reset(c)]
  }

  function StartPath(c: Call, b: Call, works: bool, overtaken: Overtaken): seq<Action> {
    [Acquire(c), Enter(c)] + Attempt(c, b, works, overtaken) + [Clear(c), Unlock(c)]
  }

  /** `acts` leads from `s` to `t`. */
  predicate Leads(s: Sys, acts: seq<Action>, t: Sys) {
    Runs(s, acts) && After(s, acts) == t
  }

  lemma Nothing(s: Sys)
    ensures Leads(s, [], s)
  {
  }

  lemma {:induction false} Then(s: Sys, acts: seq<Action>, t: Sys, a: Action) returns (u: Sys)
    requires Leads(s, acts, t) && Enabled(t, a)
    ensures u == Apply(t, a) && Leads(s, acts + [a], u)
    decreases |acts|
  {
    u := Apply(t, a);
    if acts == [] {
      assert [a][1..] == [];
    } else {
      assert (acts + [a])[0] == acts[0] && (acts + [a])[1..] == acts[1..] + [a];
      var _ := Then(Apply(s, acts[0]), acts[1..], t, a);
    }
  }

  lemma {:induction false} Join(s: Sys, acts: seq<Action>, t: Sys, more: seq<Action>, u: Sys)
    requires Leads(s, acts, t) && Leads(t, more, u)
    ensures Leads(s, acts + more, u)
    decreases |acts|
  {
    if acts == [] {
      assert acts + more == more;
    } else {
      assert (acts + more)[0] == acts[0] && (acts + more)[1..] == acts[1..] + more;
      Join(Apply(s, acts[0]), acts[1..], t, more, u);
    }
  }

  /** A start on a free lock while the tunnel is not active. */
  predicate CanStart(t: Sys, c: Call, b: Call, overtaken: Overtaken) {
    && c in t.calls && t.calls[c] == StartCalled && t.shared.tunnelMu == None && !t.shared.tunnelActive
    && (overtaken != Never ==> b in t.calls && t.calls[b] == SwitchCalled)
  }

  lemma EnterPath(t: Sys, c: Call) returns (u: Sys)
    requires c in t.calls && t.calls[c] == StartCalled && t.shared.tunnelMu == None && !t.shared.tunnelActive
    ensures Leads(t, [Acquire(c), Enter(c)], u)
    ensures u.calls == t.calls[c := StartWorking(t.shared.drv, t.shared.generation)]
    ensures u.shared == t.shared.(tunnelMu := Some(c), activeStartCancel := Some(c),
                                  activity := if t.shared.activity == Idle then Starting else t.shared.activity)
  {
    hide Leads;
    Nothing(t);
    var a := Then(t, [], t, Acquire(c));
    u := Then(t, [] + [Acquire(c)], a, Enter(c));
    assert [] + [Acquire(c)] + [Enter(c)] == [Acquire(c), Enter(c)];
  }

  lemma LeavePath(t: Sys, c: Call) returns (u: Sys)
    requires c in t.calls && t.calls[c].StartClearing?
    ensures Leads(t, [Clear(c), Unlock(c)], u)
    ensures u.calls == t.calls[c := Finished]
    ensures u.shared == t.shared.(tunnelMu := None,
                                  activeStartCancel := if t.shared.generation == t.calls[c].generation then None
                                                       else t.shared.activeStartCancel)
  {
    hide Leads;
    Nothing(t);
    var a := Then(t, [], t, Clear(c));
    u := Then(t, [] + [Clear(c)], a, Unlock(c));
    assert [] + [Clear(c)] + [Unlock(c)] == [Clear(c), Unlock(c)];
    assert u.calls == t.calls[c := Finished];
  }

  /** What a start's own steps leave, from the entering to the clearing. */
  function Attempted(h: Shared, c: Call, works: bool, overtaken: Overtaken): Shared {
    var bumped := if overtaken == Never then h else h.(generation := h.generation + 1, cancelled := h.cancelled + {c});
    if overtaken == BeforeCheck then
      bumped.(up := if works then h.up - {h.drv} else h.up)
    else if works then
      bumped.(up := h.up + {h.drv}, tunnelActive := true, deviceInfo := Some(h.drv),
              activity := if h.activity == Idle || h.activity == Starting then Ready else h.activity)
    else
      bumped.(activity := if overtaken == Never && h.activity == Starting then Idle else h.activity)
  }

  /** A start that has just entered, with the switch that may overtake it still to announce itself. */
  predicate Entered(t: Sys, c: Call, b: Call, overtaken: Overtaken) {
    && c in t.calls && t.calls[c] == StartWorking(t.shared.drv, t.shared.generation)
    && t.shared.activeStartCancel == Some(c)
    && (overtaken != Never ==> b in t.calls && t.calls[b] == SwitchCalled)
  }

  /** The other calls once the start is over. */
  function Others(t: Sys, b: Call, overtaken: Overtaken): map<Call, Point> {
    if overtaken == Never then t.calls else t.calls[b := SwitchWaiting(t.shared.drv)]
  }

  lemma WorkingPath(t: Sys, c: Call, b: Call, overtaken: Overtaken) returns (u: Sys)
    requires Entered(t, c, b, overtaken)
    ensures Leads(t, Attempt(c, b, true, overtaken), u)
    ensures u.calls == Others(t, b, overtaken)[c := StartClearing(t.shared.generation)]
    ensures u.shared == Attempted(t.shared, c, true, overtaken)
  {
    hide Leads;
    Nothing(t);
    var acts := [];
    u := Then(t, acts, t, Works(c));
    acts := acts + [Works(c)];
    if overtaken == BeforeCheck {
      u := Then(t, acts, u, Bump(b));
      acts := acts + [Bump(b)];
    }
    u := Then(t, acts, u, Check(c));
    acts := acts + [Check(c)];
    if overtaken == AfterCheck {
      u := Then(t, acts, u, Bump(b));
      acts := acts + [Bump(b)];
    }
    var settle := if overtaken == BeforeCheck then StopNew(c) else Commit(c);
    u := Then(t, acts, u, settle);
    acts := acts + [settle];
    assert acts == Attempt(c, b, true, overtaken);
    assert u.calls == Others(t, b, overtaken)[c := StartClearing(t.shared.generation)];
    assert t.shared.up + {t.shared.drv} - {t.shared.drv} == t.shared.up - {t.shared.drv};
  }

  lemma FailingPath(t: Sys, c: Call, b: Call, overtaken: Overtaken) returns (u: Sys)
    requires Entered(t, c, b, overtaken)
    ensures Leads(t, Attempt(c, b, false, overtaken), u)
    ensures u.calls == Others(t, b, overtaken)[c := StartClearing(t.shared.generation)]
    ensures u.shared == Attempted(t.shared, c, false, overtaken)
  {
    hide Leads;
    Nothing(t);
    var acts := [];
    u := Then(t, acts, t, Fails(c));
    acts := acts + [Fails(c)];
    if overtaken == BeforeCheck {
      u := Then(t, acts, u, Bump(b));
      acts := acts + [Bump(b)];
    }
    u := Then(t, acts, u, Check(c));
    acts := acts + [Check(c)];
    if overtaken == AfterCheck {
      u := Then(t, acts, u, Bump(b));
      acts := acts + [Bump(b)];
    }
    if overtaken != BeforeCheck {
      u := Then(t, acts, u, Reset(c));
      acts := acts + [Reset(c)];
    }
    assert acts == Attempt(c, b, false, overtaken);
    assert u.calls == Others(t, b, overtaken)[c := StartClearing(t.shared.generation)];
  }

  /** The interleaved steps of a start leave what `StartTunnel` promises. */
  lemma StartPathDoesWhatItPromises(t: Sys, c: Call, b: Call, works: bool, overtaken: Overtaken) returns (u: Sys)
    requires CanStart(t, c, b, overtaken)
    ensures Leads(t, StartPath(c, b, works, overtaken), u)
    ensures u.calls == Others(t, b, overtaken)[c := Finished]
    ensures u.shared.tunnelMu == None && u.shared.drv == t.shared.drv && u.shared.created == t.shared.created
    ensures u.shared.tunnelActive <==> works && overtaken != BeforeCheck
    ensures u.shared.generation == t.shared.generation + (if overtaken == Never then 0 else 1)
    ensures u.shared.cancelled == t.shared.cancelled + (if overtaken == Never then {} else {c})
    ensures u.shared.activeStartCancel == (if overtaken == Never then None else Some(c))
    ensures u.shared.up == if !works then t.shared.up
                           else if overtaken == BeforeCheck then t.shared.up - {t.shared.drv}
                           else t.shared.up + {t.shared.drv}
    ensures u.shared.deviceInfo == if u.shared.tunnelActive then Some(t.shared.drv) else t.shared.deviceInfo
    ensures u.shared.activity == if t.shared.activity != Idle && t.shared.activity != Starting then t.shared.activity
                                 else if u.shared.tunnelActive then Ready
                                 else if overtaken == Never then Idle else Starting
  {
    hide Leads, Attempt;
    var e := EnterPath(t, c);
    var m: Sys;
    if works {
      m := WorkingPath(e, c, b, overtaken);
    } else {
      m := FailingPath(e, c, b, overtaken);
    }
    u := LeavePath(m, c);
    Join(t, [Acquire(c), Enter(c)], e, Attempt(c, b, works, overtaken), m);
    Join(t, [Acquire(c), Enter(c)] + Attempt(c, b, works, overtaken), m, [Clear(c), Unlock(c)], u);
    assert u.calls == Others(t, b, overtaken)[c := Finished];
  }

  // ---------------------------------------------------------------------------
  // A switch
  // ---------------------------------------------------------------------------

  /** The steps of switch `c`, up to the release of its lock. */
  function SwitchPath(c: Call, builds: bool): seq<Action> {
    [Bump(c), Acquire(c), StopOld(c), if builds then NewWorks(c) else NewFails(c), Unlock(c)]
  }

  /** A switch on a free lock stops the driver it found, and goes on as a start of the
      driver it built; one that cannot build keeps the old driver and the active flag. */
  lemma SwitchPathDoesWhatItPromises(t: Sys, c: Call, builds: bool) returns (u: Sys)
    requires c in t.calls && t.calls[c] == SwitchCalled && t.shared.tunnelMu == None
    ensures Leads(t, SwitchPath(c, builds), u)
    ensures u.calls == t.calls[c := if builds then StartCalled else Finished]
    ensures u.shared.tunnelMu == None && u.shared.generation == t.shared.generation + 1
    ensures u.shared.up == t.shared.up - {t.shared.drv}
    ensures u.shared.cancelled == t.shared.cancelled
              + (if t.shared.activeStartCancel.Some? then {t.shared.activeStartCancel.value} else {})
    ensures builds ==>
              && u.shared.drv == t.shared.created && u.shared.created == t.shared.created + 1
              && !u.shared.tunnelActive && u.shared.deviceInfo == None && u.shared.activity == Idle
              && u.shared.activeStartCancel == t.shared.activeStartCancel
    ensures !builds ==>
              && u.shared.drv == t.shared.drv && u.shared.created == t.shared.created
              && u.shared.tunnelActive == t.shared.tunnelActive && u.shared.deviceInfo == t.shared.deviceInfo
              && u.shared.activity == (if t.shared.activity == Starting then Idle else t.shared.activity)
              && u.shared.activeStartCancel == None
  {
    hide Leads;
    Nothing(t);
    var acts := [];
    u := Then(t, acts, t, Bump(c));
    acts := acts + [Bump(c)];
    u := Then(t, acts, u, Acquire(c));
    acts := acts + [Acquire(c)];
    u := Then(t, acts, u, StopOld(c));
    acts := acts + [StopOld(c)];
    var built := if builds then NewWorks(c) else NewFails(c);
    u := Then(t, acts, u, built);
    acts := acts + [built];
    u := Then(t, acts, u, Unlock(c));
    acts := acts + [Unlock(c)];
    assert acts == SwitchPath(c, builds);
    assert u.calls == t.calls[c := if builds then StartCalled else Finished];
  }

  // ---------------------------------------------------------------------------
  // A lost tunnel
  // ---------------------------------------------------------------------------

  /** A start while the tunnel counts as active returns at once. */
  lemma ActiveStartDoesNothing(t: Sys, c: Call) returns (u: Sys)
    requires c in t.calls && t.calls[c] == StartCalled && t.shared.tunnelMu == None && t.shared.tunnelActive
    ensures Leads(t, [Acquire(c), Enter(c), Unlock(c)], u)
    ensures u.shared == t.shared && u.calls == t.calls[c := Finished]
  {
    hide Leads;
    Nothing(t);
    u := Then(t, [], t, Acquire(c));
    u := Then(t, [] + [Acquire(c)], u, Enter(c));
    u := Then(t, [] + [Acquire(c)] + [Enter(c)], u, Unlock(c));
    assert [] + [Acquire(c)] + [Enter(c)] + [Unlock(c)] == [Acquire(c), Enter(c), Unlock(c)];
    assert u.calls == t.calls[c := Finished];
  }

  /** The tunnel is recorded as lost and its driver stopped. */
  function Losing(d: Driver): seq<Action> {
    [Elsewhere(Lose), Elsewhere(Stop(d))]
  }

  lemma LosingPath(t: Sys) returns (u: Sys)
    requires t.shared.tunnelActive
    ensures Leads(t, Losing(t.shared.drv), u) && u.calls == t.calls
    ensures u.shared == t.shared.(tunnelActive := false, up := t.shared.up - {t.shared.drv},
                                  activity := if t.shared.activity == Ready || t.shared.activity == Running then Idle
                                              else t.shared.activity)
  {
    hide Leads;
    Nothing(t);
    u := Then(t, [], t, Elsewhere(Lose));
    u := Then(t, [] + [Elsewhere(Lose)], u, Elsewhere(Stop(t.shared.drv)));
    assert [] + [Elsewhere(Lose)] + [Elsewhere(Stop(t.shared.drv))] == Losing(t.shared.drv);
  }

  /** What the loss of a tunnel is recorded for: a start that would have had nothing to
      do before it brings the tunnel back after it, with the driver running and the
      status ready unless the device is being moved or paused. */
  lemma LostTunnelComesBack(t: Sys, c: Call) returns (u: Sys)
    requires c in t.calls && t.calls[c] == StartCalled && t.shared.tunnelMu == None && t.shared.tunnelActive
    ensures Leads(t, Losing(t.shared.drv) + StartPath(c, c, true, Never), u)
    ensures u.calls == t.calls[c := Finished] && u.shared.tunnelActive && u.shared.drv == t.shared.drv
    ensures u.shared.up == t.shared.up + {t.shared.drv} && u.shared.deviceInfo == Some(t.shared.drv)
    ensures u.shared.activity == if t.shared.activity == Moving || t.shared.activity == Paused then t.shared.activity
                                 else Ready
  {
    hide Leads, StartPath, Losing;
    var lost := LosingPath(t);
    u := StartPathDoesWhatItPromises(lost, c, c, true, Never);
    Join(t, Losing(t.shared.drv), lost, StartPath(c, c, true, Never), u);
  }

  /** But an endpoint that was re-resolved before the tunnel was lost and is stored
      after it sets the flag again: the start has nothing to do, and the driver stays
      down while the tunnel counts as active. */
  lemma LateUpdateBlocksTheRestart(t: Sys, c: Call) returns (u: Sys)
    requires c in t.calls && t.calls[c] == StartCalled && t.shared.tunnelMu == None && t.shared.tunnelActive
    ensures Leads(t, Losing(t.shared.drv) + [Elsewhere(Update)] + [Acquire(c), Enter(c), Unlock(c)], u)
    ensures u.calls == t.calls[c := Finished] && u.shared.tunnelActive
    ensures u.shared.drv == t.shared.drv && u.shared.up == t.shared.up - {t.shared.drv}
    ensures u.shared.activity == if t.shared.activity == Ready || t.shared.activity == Running then Idle
                                 else t.shared.activity
  {
    hide Leads, Losing;
    var lost := LosingPath(t);
    var late := Then(t, Losing(t.shared.drv), lost, Elsewhere(Update));
    u := ActiveStartDoesNothing(late, c);
    Join(t, Losing(t.shared.drv) + [Elsewhere(Update)], late, [Acquire(c), Enter(c), Unlock(c)], u);
  }

  /** The status of a simulation that began before a start survives it, whether the
      tunnel comes up or not. */
  lemma SimulationKeepsItsStatus(t: Sys, c: Call, activity: Activity, works: bool) returns (u: Sys)
    requires CanStart(t, c, c, Never) && activity != Idle && activity != Starting
    ensures Leads(t, [Elsewhere(Become(activity))] + StartPath(c, c, works, Never), u)
    ensures u.shared.activity == activity && u.calls == t.calls[c := Finished]
    ensures u.shared.tunnelActive <==> works
  {
    hide Leads, StartPath;
    Nothing(t);
    var begun := Then(t, [], t, Elsewhere(Become(activity)));
    assert [] + [Elsewhere(Become(activity))] == [Elsewhere(Become(activity))];
    u := StartPathDoesWhatItPromises(begun, c, c, works, Never);
    Join(t, [Elsewhere(Become(activity))], begun, StartPath(c, c, works, Never), u);
  }
}
