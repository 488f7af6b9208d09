/** What holds in every interleaving of starts and switches, and exactly when a
    superseded driver can keep its tunnel. */
module TunnelSafety {
  import opened Wrappers
  import opened TunnelState
  import opened TunnelCalls

  // ---------------------------------------------------------------------------
  // Every interleaving
  // ---------------------------------------------------------------------------

  /** The status is "starting" only while a start that has not settled yet holds the
      lock, or while a switch that has bumped the generation is still pending. */
  lemma NeverStuckStarting(s: Sys, acts: seq<Action>)
    requires Init(s) && Runs(s, acts)
    ensures var t := After(s, acts);
            t.shared.activity == Starting ==>
              || (exists c :: c in t.calls && InStart(t.calls[c]) && t.shared.tunnelMu == Some(c))
              || (exists c :: c in t.calls && Pending(t.calls[c]))
  {
    InitHoldsInv(s);
    RunKeepsInv(s, acts);
    var t := After(s, acts);
    if t.shared.activity == Starting && !SomePending(t.calls) {
      var c :| c in t.calls && InStart(t.calls[c]);
      assert Holds(t.calls[c]);
    }
  }

  /** So once every call has returned, it is not "starting". */
  lemma QuiescentIsNotStarting(s: Sys, acts: seq<Action>)
    requires Init(s) && Runs(s, acts)
    requires AllReturned(After(s, acts))
    ensures After(s, acts).shared.activity != Starting
    ensures After(s, acts).shared.tunnelMu == None
  {
    NeverStuckStarting(s, acts);
    InitHoldsInv(s);
    RunKeepsInv(s, acts);
  }

  /** At most one driver call is in progress, it is on the current driver, and the
      cancel function a switch would call is its own. */
  lemma OneStartAtATime(s: Sys, acts: seq<Action>, c: Call, d: Call)
    requires Init(s) && Runs(s, acts)
    requires c in After(s, acts).calls && InStart(After(s, acts).calls[c])
    requires d in After(s, acts).calls && Holds(After(s, acts).calls[d])
    ensures c == d
    ensures After(s, acts).calls[c].drv == After(s, acts).shared.drv
    ensures After(s, acts).shared.activeStartCancel == Some(c)
  {
    InitHoldsInv(s);
    RunKeepsInv(s, acts);
    var t := After(s, acts);
    assert PointInv(t.shared, t.calls, c, t.calls[c]);
    assert Holds(t.calls[c]);
  }

  /** When a switch announces itself, the start in progress, if there is one, is
      cancelled, and no other call newly is; at that moment its generation check would
      fail. A start that has already passed its check still commits. */
  lemma SwitchCancelsTheStart(s: Sys, acts: seq<Action>, b: Call, c: Call)
    requires Init(s) && Runs(s, acts)
    requires var t := After(s, acts);
             && Enabled(t, Bump(b))
             && c in t.calls && InStart(t.calls[c])
    ensures var t, u := After(s, acts), Apply(After(s, acts), Bump(b));
            && u.shared.cancelled == t.shared.cancelled + {c}
            && c in u.calls && u.calls[c] == t.calls[c]
            && !IsCurrent(u.shared, u.calls[c].generation, u.calls[c].drv)
            && (u.calls[c].StartCommitting? ==> Enabled(u, Commit(c)) && Apply(u, Commit(c)).shared.tunnelActive)
  {
    InitHoldsInv(s);
    RunKeepsInv(s, acts);
    var t := After(s, acts);
    assert PointInv(t.shared, t.calls, c, t.calls[c]);
  }

  /** A start that has entered and not yet asked whether it is still current. */
  predicate Unchecked(p: Point) {
    p.StartWorking? || p.StartIsUp? || p.StartFailed?
  }

  /** A start that can no longer commit: superseded before its check, or past it without passing. */
  predicate Doomed(h: Shared, p: Point) {
    || (Unchecked(p) && p.generation < h.generation)
    || p.StartAbandoning? || p.StartClearing? || p.StartReturning? || p.Finished?
  }

  lemma DoomedStays(s: Sys, a: Action, c: Call)
    requires Enabled(s, a) && c in s.calls && Doomed(s.shared, s.calls[c])
    ensures var t := Apply(s, a); c in t.calls && Doomed(t.shared, t.calls[c])
  {
  }

  lemma {:induction false} DoomedForGood(s: Sys, acts: seq<Action>, c: Call)
    requires Runs(s, acts) && c in s.calls && Doomed(s.shared, s.calls[c])
    ensures c in After(s, acts).calls && Doomed(After(s, acts).shared, After(s, acts).calls[c])
    decreases |acts|
  {
    hide Doomed, Enabled, Apply;
    if acts != [] {
      DoomedStays(s, acts[0], c);
      DoomedForGood(Apply(s, acts[0]), acts[1..], c);
    }
  }

  /** A start that a switch overtakes before its check never commits and never resets
      the status, whatever happens afterwards. */
  lemma OvertakenStartNeverCommits(s: Sys, acts: seq<Action>, b: Call, c: Call, later: seq<Action>)
    requires Init(s) && Runs(s, acts) && Enabled(After(s, acts), Bump(b))
    requires c in After(s, acts).calls && Unchecked(After(s, acts).calls[c])
    requires Runs(Apply(After(s, acts), Bump(b)), later)
    ensures var v := After(Apply(After(s, acts), Bump(b)), later);
            c in v.calls && !v.calls[c].StartCommitting? && !v.calls[c].StartResetting?
  {
    SwitchCancelsTheStart(s, acts, b, c);
    InitHoldsInv(s);
    RunKeepsInv(s, acts);
    var t := After(s, acts);
    assert PointInv(t.shared, t.calls, c, t.calls[c]);
    DoomedForGood(Apply(t, Bump(b)), later, c);
  }

  /** How many switches announced themselves. */
  function Bumps(acts: seq<Action>): nat
    decreases |acts|
  {
    if acts == [] then 0 else (if acts[0].Bump? then 1 else 0) + Bumps(acts[1..])
  }

  /** A start keeps its driver and generation until its check, after which it never asks again. */
  predicate Keeps(p: Point, d: Driver, generation: nat) {
    if Unchecked(p) then p.drv == d && p.generation == generation
    else
      || p.StartCommitting? || p.StartAbandoning? || p.StartResetting?
      || p.StartClearing? || p.StartReturning? || p.Finished?
  }

  lemma StepKeeps(s: Sys, a: Action, c: Call, d: Driver, generation: nat)
    requires Enabled(s, a) && c in s.calls && Keeps(s.calls[c], d, generation)
    ensures c in Apply(s, a).calls && Keeps(Apply(s, a).calls[c], d, generation)
    ensures Apply(s, a).shared.generation == s.shared.generation + (if a.Bump? then 1 else 0)
  {
  }

  lemma {:induction false} RunKeeps(s: Sys, acts: seq<Action>, c: Call, d: Driver, generation: nat)
    requires Runs(s, acts) && c in s.calls && Keeps(s.calls[c], d, generation)
    ensures c in After(s, acts).calls && Keeps(After(s, acts).calls[c], d, generation)
    ensures After(s, acts).shared.generation == s.shared.generation + Bumps(acts)
    decreases |acts|
  {
    hide Keeps, Enabled, Apply;
    if acts != [] {
      StepKeeps(s, acts[0], c, d, generation);
      RunKeeps(Apply(s, acts[0]), acts[1..], c, d, generation);
    }
  }

  /** What the generation check means: it passes if and only if no switch has announced
      itself since the start read the driver, whatever else has run. */
  lemma CheckPassesExactly(s: Sys, before: seq<Action>, c: Call, since: seq<Action>)
    requires Init(s) && Runs(s, before)
    requires Enabled(After(s, before), Enter(c)) && !After(s, before).shared.tunnelActive
    requires Runs(Apply(After(s, before), Enter(c)), since)
    ensures var v := After(Apply(After(s, before), Enter(c)), since);
            && c in v.calls
            && (Unchecked(v.calls[c]) ==>
                  (IsCurrent(v.shared, v.calls[c].generation, v.calls[c].drv) <==> Bumps(since) == 0))
  {
    var t := After(s, before);
    var u := Apply(t, Enter(c));
    assert u.calls[c] == StartWorking(u.shared.drv, u.shared.generation);
    RunKeeps(u, since, c, u.shared.drv, u.shared.generation);
    InitHoldsInv(s);
    RunKeepsInv(s, before);
    StepKeepsInv(t, Enter(c));
    RunKeepsInv(u, since);
    var v := After(u, since);
    assert PointInv(v.shared, v.calls, c, v.calls[c]);
  }

  /** The device description, when there is one, is of the current driver. */
  lemma DeviceInfoNamesTheDriver(s: Sys, acts: seq<Action>)
    requires Init(s) && Runs(s, acts)
    ensures var h := After(s, acts).shared; h.deviceInfo == None || h.deviceInfo == Some(h.drv)
  {
    InitHoldsInv(s);
    RunKeepsInv(s, acts);
  }

  // ---------------------------------------------------------------------------
  // Superseded tunnels
  // ---------------------------------------------------------------------------

  /** No driver but the current one has a running tunnel. */
  predicate NoLeak(s: Sys) {
    s.shared.up <= {s.shared.drv}
  }

  /** A switch is about to install its driver over one it did not stop, because
      another switch replaced the driver in between, and that one is running. */
  predicate Leaks(s: Sys, a: Action)
    requires Enabled(s, a)
  {
    a.NewWorks? && s.calls[a.c].oldDrv != s.shared.drv && s.shared.drv in s.shared.up
  }

  lemma LeakExactly(s: Sys, a: Action)
    requires Inv(s) && NoLeak(s) && Enabled(s, a)
    ensures NoLeak(Apply(s, a)) <==> !Leaks(s, a)
  {
  }

  ghost predicate NeverLeaks(s: Sys, acts: seq<Action>)
    requires Runs(s, acts)
    decreases |acts|
  {
    acts != [] ==> !Leaks(s, acts[0]) && NeverLeaks(Apply(s, acts[0]), acts[1..])
  }

  ghost predicate AlwaysNoLeak(s: Sys, acts: seq<Action>)
    requires Runs(s, acts)
    decreases |acts|
  {
    NoLeak(s) && (acts != [] ==> AlwaysNoLeak(Apply(s, acts[0]), acts[1..]))
  }

  /** How many switches installed their driver. */
  function Installs(acts: seq<Action>): nat
    decreases |acts|
  {
    if acts == [] then 0 else (if acts[0].NewWorks? then 1 else 0) + Installs(acts[1..])
  }

  /** A pending switch remembers the driver it found. */
  predicate Remembers(p: Point, d: Driver) {
    Pending(p) ==> p.oldDrv == d
  }

  /** A call past its announcement never announces itself again. */
  predicate Announced(p: Point) {
    !p.SwitchCalled?
  }

  lemma StepRemembers(s: Sys, a: Action, c: Call, d: Driver)
    requires Enabled(s, a) && c in s.calls && Announced(s.calls[c]) && Remembers(s.calls[c], d)
    requires s.shared.drv < s.shared.created
    ensures var t := Apply(s, a);
            && c in t.calls && Announced(t.calls[c]) && Remembers(t.calls[c], d)
            && t.shared.drv < t.shared.created && s.shared.drv <= t.shared.drv
            && (s.shared.drv < t.shared.drv <==> a.NewWorks?)
  {
  }

  lemma {:induction false} RunRemembers(s: Sys, acts: seq<Action>, c: Call, d: Driver)
    requires Runs(s, acts) && c in s.calls && Announced(s.calls[c]) && Remembers(s.calls[c], d)
    requires s.shared.drv < s.shared.created
    ensures var t := After(s, acts);
            && c in t.calls && Remembers(t.calls[c], d)
            && s.shared.drv <= t.shared.drv && (s.shared.drv < t.shared.drv <==> Installs(acts) > 0)
    decreases |acts|
  {
    hide Enabled, Apply, Announced, Remembers;
    if acts != [] {
      StepRemembers(s, acts[0], c, d);
      RunRemembers(Apply(s, acts[0]), acts[1..], c, d);
    }
  }

  /** The condition read from the history: a switch that installs its driver leaks if
      and only if another switch has installed one since this one announced itself, and
      that driver's tunnel is running. */
  lemma LeakFromHistory(s: Sys, before: seq<Action>, c: Call, since: seq<Action>)
    requires Init(s) && Runs(s, before) && Enabled(After(s, before), Bump(c))
    requires Runs(Apply(After(s, before), Bump(c)), since)
    requires Enabled(After(Apply(After(s, before), Bump(c)), since), NewWorks(c))
    ensures var v := After(Apply(After(s, before), Bump(c)), since);
            && (v.calls[c].oldDrv != v.shared.drv <==> Installs(since) > 0)
            && (Leaks(v, NewWorks(c)) <==> Installs(since) > 0 && v.shared.drv in v.shared.up)
            && (v.shared.drv in v.shared.up ==> Installs(since) > 0)
  {
    InitHoldsInv(s);
    RunKeepsInv(s, before);
    var t := After(s, before);
    StepKeepsInv(t, Bump(c));
    var u := Apply(t, Bump(c));
    RunRemembers(u, since, c, u.shared.drv);
    RunKeepsInv(u, since);
    var v := After(u, since);
    assert PointInv(v.shared, v.calls, c, v.calls[c]);
  }

  /** Over a whole run only the current driver ever has a tunnel if and only if no
      switch installs its driver over a running one it did not stop itself. */
  lemma {:induction false} NoLeakExactlyOverRuns(s: Sys, acts: seq<Action>)
    requires Inv(s) && NoLeak(s) && Runs(s, acts)
    ensures AlwaysNoLeak(s, acts) <==> NeverLeaks(s, acts)
    decreases |acts|
  {
    if acts != [] {
      LeakExactly(s, acts[0]);
      StepKeepsInv(s, acts[0]);
      if NoLeak(Apply(s, acts[0])) {
        NoLeakExactlyOverRuns(Apply(s, acts[0]), acts[1..]);
      }
    }
  }

  /** At most one switch is between its bump and the end of its locked section. */
  ghost predicate OneSwitch(calls: map<Call, Point>) {
    forall c, d :: c in calls && d in calls && Pending(calls[c]) && Pending(calls[d]) ==> c == d
  }

  ghost predicate SwitchesDoNotOverlap(s: Sys, acts: seq<Action>)
    requires Runs(s, acts)
    decreases |acts|
  {
    OneSwitch(s.calls) && (acts != [] ==> SwitchesDoNotOverlap(Apply(s, acts[0]), acts[1..]))
  }

  /** A pending switch remembers the driver that is still current. */
  ghost predicate SwitchesKnowTheDriver(s: Sys) {
    forall c :: c in s.calls && Pending(s.calls[c]) ==> s.calls[c].oldDrv == s.shared.drv
  }

  lemma SwitchesKeepKnowing(s: Sys, a: Action)
    requires OneSwitch(s.calls) && SwitchesKnowTheDriver(s) && Enabled(s, a)
    ensures SwitchesKnowTheDriver(Apply(s, a))
  {
  }

  /** If switches do not overlap, no superseded tunnel survives: at every moment of
      the run, whatever the number of concurrent starts and whatever else stops
      drivers or writes the status, only the current driver can have a tunnel. */
  lemma {:induction false} NoSupersededTunnelFrom(s: Sys, acts: seq<Action>)
    requires Inv(s) && NoLeak(s) && SwitchesKnowTheDriver(s) && Runs(s, acts)
    requires SwitchesDoNotOverlap(s, acts)
    ensures AlwaysNoLeak(s, acts)
    decreases |acts|
  {
    if acts != [] {
      LeakExactly(s, acts[0]);
      StepKeepsInv(s, acts[0]);
      SwitchesKeepKnowing(s, acts[0]);
      NoSupersededTunnelFrom(Apply(s, acts[0]), acts[1..]);
    }
  }

  lemma NoSupersededTunnelSurvives(s: Sys, acts: seq<Action>)
    requires Init(s) && Runs(s, acts)
    requires SwitchesDoNotOverlap(s, acts)
    ensures AlwaysNoLeak(s, acts)
  {
    InitHoldsInv(s);
    NoSupersededTunnelFrom(s, acts);
  }

  // ---------------------------------------------------------------------------
  // Overlapping switches do leak
  // ---------------------------------------------------------------------------

  ghost predicate Reachable(t: Sys) {
    exists s, acts :: Init(s) && Runs(s, acts) && After(s, acts) == t
  }

  lemma {:induction false} AppendAction(s: Sys, acts: seq<Action>, a: Action)
    requires Runs(s, acts) && Enabled(After(s, acts), a)
    ensures Runs(s, acts + [a]) && After(s, acts + [a]) == Apply(After(s, acts), a)
    decreases |acts|
  {
    if acts == [] {
      assert [a][1..] == [];
    } else {
      assert (acts + [a])[0] == acts[0] && (acts + [a])[1..] == acts[1..] + [a];
      AppendAction(Apply(s, acts[0]), acts[1..], a);
    }
  }

  lemma Do(t: Sys, a: Action) returns (u: Sys)
    requires Reachable(t) && Enabled(t, a)
    ensures Reachable(u) && u == Apply(t, a)
  {
    hide Init, Enabled, Apply;
    var s, acts :| Init(s) && Runs(s, acts) && After(s, acts) == t;
    AppendAction(s, acts, a);
    u := Apply(t, a);
  }

  /** A start on a free lock with an inactive tunnel, run to the end by call `c`. */
  lemma StartAlone(t: Sys, c: Call) returns (u: Sys)
    requires Reachable(t) && c in t.calls && t.calls[c] == StartCalled
    requires t.shared.tunnelMu.None? && !t.shared.tunnelActive
    ensures Reachable(u) && u.calls == t.calls[c := Finished]
    ensures u.shared.tunnelMu.None? && u.shared.drv == t.shared.drv && u.shared.created == t.shared.created
    ensures u.shared.up == t.shared.up + {t.shared.drv}
  {
    hide Reachable;
    var a := Do(t, Acquire(c));
    a := Do(a, Enter(c));
    a := Do(a, Works(c));
    u := SettleAlone(a, c);
    assert u.calls == t.calls[c := Finished];
  }

  lemma SettleAlone(t: Sys, c: Call) returns (u: Sys)
    requires Reachable(t) && c in t.calls
    requires t.calls[c].StartIsUp? && IsCurrent(t.shared, t.calls[c].generation, t.calls[c].drv)
    ensures Reachable(u) && u.calls == t.calls[c := Finished]
    ensures u.shared.tunnelMu.None? && u.shared.drv == t.shared.drv && u.shared.created == t.shared.created
    ensures u.shared.up == t.shared.up
  {
    hide Reachable;
    var a := Do(t, Check(c));
    a := Do(a, Commit(c));
    a := Do(a, Clear(c));
    u := Do(a, Unlock(c));
  }

  /** A waiting switch takes the free lock, builds a driver and starts its tunnel. */
  lemma SwitchAlone(t: Sys, c: Call) returns (u: Sys)
    requires Reachable(t) && c in t.calls && t.calls[c].SwitchWaiting?
    requires t.shared.tunnelMu.None?
    ensures Reachable(u) && u.calls == t.calls[c := Finished]
    ensures u.shared.tunnelMu.None? && u.shared.drv == t.shared.created && u.shared.created == t.shared.created + 1
    ensures u.shared.up == t.shared.up - {t.calls[c].oldDrv} + {t.shared.created}
  {
    hide Reachable;
    var a := Do(t, Acquire(c));
    a := Do(a, StopOld(c));
    a := Do(a, NewWorks(c));
    a := Do(a, Unlock(c));
    u := StartAlone(a, c);
    assert u.calls == t.calls[c := Finished];
  }

  lemma InitIsReachable(s: Sys)
    requires Init(s)
    ensures Reachable(s)
  {
    assert Runs(s, []) && After(s, []) == s;
  }

  /** On a new engine two switches announce themselves before either has the lock. */
  lemma BothAnnounced() returns (u: Sys)
    ensures Reachable(u) && u.calls == map[1 := SwitchWaiting(0), 2 := SwitchWaiting(0)]
    ensures u.shared.tunnelMu.None? && u.shared.drv == 0 && u.shared.created == 1 && u.shared.up == {}
  {
    hide Reachable;
    var s := Sys(Shared(0, 0, Idle, false, None, None, {}, None, {}, 1), map[]);
    InitIsReachable(s);
    var a := Do(s, CallSwitch(1));
    a := Do(a, CallSwitch(2));
    a := Do(a, Bump(1));
    u := Do(a, Bump(2));
  }

  predicate AllReturned(t: Sys) {
    forall c :: c in t.calls ==> t.calls[c] == Finished
  }

  /** Two switches that both announce themselves before either takes the lock leave
      the first one's driver running for good: every call has returned, the lock is
      free, and a driver that is not the current one still has its tunnel. */
  lemma OverlappingSwitchesLeak()
    ensures exists u :: Reachable(u) && AllReturned(u) && u.shared.tunnelMu.None? && !NoLeak(u)
  {
    hide Reachable;
    var a := BothAnnounced();
    a := SwitchAlone(a, 1);
    var u := SwitchAlone(a, 2);
    assert 1 in u.shared.up && u.shared.drv == 2;
  }
}
