/** Any number of `StartTunnel` and `SwitchDriver` calls in progress at once, each at
    a point between two critical sections, together with the engine's other writers
    of the same fields. */
module TunnelCalls {
  import opened Wrappers
  import opened TunnelState

  /** Where a call is. A switch goes on as a start once it has installed its driver. */
  datatype Point =
    | StartCalled
    | StartLocked
    | StartWorking(drv: Driver, generation: nat)
    | StartIsUp(drv: Driver, generation: nat)
    | StartFailed(drv: Driver, generation: nat)
    | StartCommitting(drv: Driver, generation: nat)
    | StartAbandoning(drv: Driver, generation: nat)
    | StartResetting(drv: Driver, generation: nat)
    | StartClearing(generation: nat)
    | StartReturning
    | SwitchCalled
    | SwitchWaiting(oldDrv: Driver)
    | SwitchLocked(oldDrv: Driver)
    | SwitchStopped(oldDrv: Driver)
    | SwitchReturning
    | SwitchInstalled
    | Finished

  datatype Sys = Sys(shared: Shared, calls: map<Call, Point>)

  datatype Action =
    | CallStart(c: Call)
    | CallSwitch(c: Call)
    | Acquire(c: Call)
    | Enter(c: Call)
    | Works(c: Call)
    | Fails(c: Call)
    | Check(c: Call)
    | Commit(c: Call)
    | StopNew(c: Call)
    | Reset(c: Call)
    | Clear(c: Call)
    | Unlock(c: Call)
    | Bump(c: Call)
    | StopOld(c: Call)
    | NewFails(c: Call)
    | NewWorks(c: Call)
    | Elsewhere(write: Write)

  /** What the rest of the engine may do to the shared fields at any moment: the
      health loop, the simulations, and stopping any driver. Nobody else writes
      "starting". */
  datatype Write = Lose | Update | Become(activity: Activity) | Stop(drv: Driver)

  predicate Holds(p: Point) {
    match p
    case StartCalled | SwitchCalled | SwitchWaiting(_) | Finished => false
    case _ => true
  }

  /** A start that has entered and not yet reached the section that settles it. */
  predicate InStart(p: Point) {
    p.StartWorking? || p.StartIsUp? || p.StartFailed? || p.StartCommitting? || p.StartAbandoning? || p.StartResetting?
  }

  /** A switch that has bumped the generation and not yet finished its locked section. */
  predicate Pending(p: Point) {
    p.SwitchWaiting? || p.SwitchLocked? || p.SwitchStopped?
  }

  predicate Enabled(s: Sys, a: Action) {
    match a
    case CallStart(c) => c !in s.calls
    case CallSwitch(c) => c !in s.calls
    case Acquire(c) => c in s.calls && (s.calls[c].StartCalled? || s.calls[c].SwitchWaiting?) && s.shared.tunnelMu.None?
    case Enter(c) => c in s.calls && s.calls[c].StartLocked?
    case Works(c) => c in s.calls && s.calls[c].StartWorking?
    case Fails(c) => c in s.calls && s.calls[c].StartWorking?
    case Check(c) => c in s.calls && (s.calls[c].StartIsUp? || s.calls[c].StartFailed?)
    case Commit(c) => c in s.calls && s.calls[c].StartCommitting?
    case StopNew(c) => c in s.calls && s.calls[c].StartAbandoning?
    case Reset(c) => c in s.calls && s.calls[c].StartResetting?
    case Clear(c) => c in s.calls && s.calls[c].StartClearing?
    case Unlock(c) =>
      c in s.calls && (s.calls[c].StartReturning? || s.calls[c].SwitchReturning? || s.calls[c].SwitchInstalled?)
    case Bump(c) => c in s.calls && s.calls[c].SwitchCalled?
    case StopOld(c) => c in s.calls && s.calls[c].SwitchLocked?
    case NewFails(c) => c in s.calls && s.calls[c].SwitchStopped?
    case NewWorks(c) => c in s.calls && s.calls[c].SwitchStopped?
    case Elsewhere(w) => w.Become? ==> w.activity != Starting
  }

  function NextShared(s: Sys, a: Action): Shared
    requires Enabled(s, a)
  {
    var h := s.shared;
    match a
    case Acquire(c) => h.(tunnelMu := Some(c))
    case Enter(c) => if h.tunnelActive then h else EnterStart(h, c)
    case Works(c) => TunnelUp(h, s.calls[c].drv)
    case Commit(c) => CommitStart(h, s.calls[c].drv)
    case StopNew(c) => TunnelDown(h, s.calls[c].drv)
    case Reset(c) => ResetStart(h, s.calls[c].generation, s.calls[c].drv)
    case Clear(c) => ClearActiveStart(h, s.calls[c].generation)
    case Unlock(c) => h.(tunnelMu := None)
    case Bump(c) => BumpGeneration(h)
    case StopOld(c) => TunnelDown(h, s.calls[c].oldDrv)
    case NewFails(c) => AbandonSwitch(h)
    case NewWorks(c) => InstallDriver(h)
    case Elsewhere(Lose) => MarkTunnelLost(h)
    case Elsewhere(Update) => ApplyTunnelUpdate(h)
    case Elsewhere(Become(activity)) => h.(activity := activity)
    case Elsewhere(Stop(drv)) => TunnelDown(h, drv)
    case _ => h
  }

  function NextPoint(s: Sys, a: Action): Point
    requires Enabled(s, a) && !a.Elsewhere?
  {
    match a
    case CallStart(_) => StartCalled
    case CallSwitch(_) => SwitchCalled
    case Acquire(c) => if s.calls[c].StartCalled? then StartLocked else SwitchLocked(s.calls[c].oldDrv)
    case Enter(_) => if s.shared.tunnelActive then StartReturning else StartWorking(s.shared.drv, s.shared.generation)
    case Works(c) => StartIsUp(s.calls[c].drv, s.calls[c].generation)
    case Fails(c) => StartFailed(s.calls[c].drv, s.calls[c].generation)
    case Check(c) =>
      var p := s.calls[c];
      if IsCurrent(s.shared, p.generation, p.drv) then
        if p.StartIsUp? then StartCommitting(p.drv, p.generation) else StartResetting(p.drv, p.generation)
      else
        if p.StartIsUp? then StartAbandoning(p.drv, p.generation) else StartClearing(p.generation)
    case Commit(c) => StartClearing(s.calls[c].generation)
    case StopNew(c) => StartClearing(s.calls[c].generation)
    case Reset(c) => StartClearing(s.calls[c].generation)
    case Clear(_) => StartReturning
    case Unlock(c) => if s.calls[c].SwitchInstalled? then StartCalled else Finished
    case Bump(_) => SwitchWaiting(s.shared.drv)
    case StopOld(c) => SwitchStopped(s.calls[c].oldDrv)
    case NewFails(_) => SwitchReturning
    case NewWorks(_) => SwitchInstalled
  }

  function Apply(s: Sys, a: Action): Sys
    requires Enabled(s, a)
  {
    if a.Elsewhere? then Sys(NextShared(s, a), s.calls)
    else Sys(NextShared(s, a), s.calls[a.c := NextPoint(s, a)])
  }

  predicate Runs(s: Sys, acts: seq<Action>)
    decreases |acts|
  {
    acts == [] || (Enabled(s, acts[0]) && Runs(Apply(s, acts[0]), acts[1..]))
  }

  function After(s: Sys, acts: seq<Action>): Sys
    requires Runs(s, acts)
    decreases |acts|
  {
    if acts == [] then s else After(Apply(s, acts[0]), acts[1..])
  }

  /** A new engine with no call in progress. */
  predicate Init(s: Sys) {
    && s.calls == map[]
    && s.shared == Shared(s.shared.drv, 0, Idle, false, None, None, {}, None, {}, s.shared.drv + 1)
  }

  // ---------------------------------------------------------------------------
  // Invariants
  // ---------------------------------------------------------------------------

  /** The lock has one holder: the call that is at a locked point. */
  predicate LockInv(s: Sys) {
    && (s.shared.tunnelMu.Some? ==> s.shared.tunnelMu.value in s.calls)
    && forall c :: c in s.calls ==> (Holds(s.calls[c]) <==> s.shared.tunnelMu == Some(c))
  }

  ghost predicate SomePending(calls: map<Call, Point>) {
    exists c :: c in calls && Pending(calls[c])
  }

  ghost predicate SomeInStart(calls: map<Call, Point>) {
    exists c :: c in calls && InStart(calls[c])
  }

  /** What one call's point says about the shared fields. A start works on the current
      driver, its cancel function is the registered one, and if its generation has
      been superseded then the switch that did it is still pending. */
  ghost predicate PointInv(h: Shared, calls: map<Call, Point>, c: Call, p: Point) {
    && (InStart(p) ==>
          p.drv == h.drv && p.generation <= h.generation && h.activeStartCancel == Some(c)
          && (p.generation < h.generation ==> SomePending(calls)))
    && (p.StartAbandoning? ==> p.generation < h.generation)
    && (p.StartClearing? ==>
          p.generation <= h.generation && h.activeStartCancel == Some(c)
          && (p.generation < h.generation ==> SomePending(calls)))
    && (p.SwitchStopped? ==> p.oldDrv !in h.up)
  }

  ghost predicate Inv(s: Sys) {
    && LockInv(s)
    && s.shared.drv < s.shared.created
    && (s.shared.deviceInfo.Some? ==> s.shared.deviceInfo.value == s.shared.drv)
    && (forall c :: c in s.calls ==> PointInv(s.shared, s.calls, c, s.calls[c]))
    && (s.shared.activity == Starting ==> SomeInStart(s.calls) || SomePending(s.calls))
  }

  lemma StepKeepsLock(s: Sys, a: Action)
    requires LockInv(s) && Enabled(s, a)
    ensures LockInv(Apply(s, a))
  {
  }

  /** A pending switch stays pending until it writes the status itself. */
  lemma PendingPersists(s: Sys, a: Action)
    requires Enabled(s, a) && SomePending(s.calls) && !a.NewFails? && !a.NewWorks?
    ensures SomePending(Apply(s, a).calls)
  {
    var c :| c in s.calls && Pending(s.calls[c]);
    assert Pending(Apply(s, a).calls[c]);
  }

  /** The point of the call that moves. */
  lemma MoverKeepsInv(s: Sys, a: Action)
    requires Inv(s) && Enabled(s, a) && !a.Elsewhere?
    ensures PointInv(Apply(s, a).shared, Apply(s, a).calls, a.c, NextPoint(s, a))
  {
    var t := Apply(s, a);
    if a.c in s.calls {
      assert PointInv(s.shared, s.calls, a.c, s.calls[a.c]);
    }
    if SomePending(s.calls) && !a.NewFails? && !a.NewWorks? {
      PendingPersists(s, a);
    }
  }

  /** The point of a call that stays where it is. */
  lemma BystanderKeepsInv(s: Sys, a: Action, c: Call)
    requires Inv(s) && Enabled(s, a) && c in s.calls && (a.Elsewhere? || c != a.c)
    ensures PointInv(Apply(s, a).shared, Apply(s, a).calls, c, s.calls[c])
  {
    var t, p := Apply(s, a), s.calls[c];
    assert PointInv(s.shared, s.calls, c, p);
    if SomePending(s.calls) && !a.NewFails? && !a.NewWorks? {
      PendingPersists(s, a);
    }
    if a.Bump? {
      assert Pending(t.calls[a.c]);
    }
  }

  lemma StartingStaysExplained(s: Sys, a: Action)
    requires Inv(s) && Enabled(s, a)
    ensures var t := Apply(s, a); t.shared.activity == Starting ==> SomeInStart(t.calls) || SomePending(t.calls)
  {
    var t := Apply(s, a);
    if t.shared.activity == Starting {
      if !a.Elsewhere? && InStart(NextPoint(s, a)) {
        assert InStart(t.calls[a.c]);
      } else {
        assert s.shared.activity == Starting && !a.NewFails? && !a.NewWorks?;
        if SomePending(s.calls) {
          PendingPersists(s, a);
        } else {
          var c :| c in s.calls && InStart(s.calls[c]);
          assert PointInv(s.shared, s.calls, c, s.calls[c]);
          if a.Elsewhere? || c != a.c {
            assert InStart(t.calls[c]);
          }
        }
      }
    }
  }

  lemma FactsStay(s: Sys, a: Action)
    requires Inv(s) && Enabled(s, a)
    ensures var h := Apply(s, a).shared;
            h.drv < h.created && (h.deviceInfo.Some? ==> h.deviceInfo.value == h.drv)
  {
    if a.Commit? {
      assert PointInv(s.shared, s.calls, a.c, s.calls[a.c]);
    }
  }

  lemma StepKeepsInv(s: Sys, a: Action)
    requires Inv(s) && Enabled(s, a)
    ensures Inv(Apply(s, a))
  {
    hide NextShared, NextPoint, PointInv, LockInv, Enabled, SomePending, SomeInStart;
    StepKeepsLock(s, a);
    FactsStay(s, a);
    StartingStaysExplained(s, a);
    forall c | c in Apply(s, a).calls
      ensures PointInv(Apply(s, a).shared, Apply(s, a).calls, c, Apply(s, a).calls[c])
    {
      if a.Elsewhere? || c != a.c {
        BystanderKeepsInv(s, a, c);
      } else {
        MoverKeepsInv(s, a);
      }
    }
  }

  lemma InitHoldsInv(s: Sys)
    requires Init(s)
    ensures Inv(s)
  {
  }

  lemma {:induction false} RunKeepsInv(s: Sys, acts: seq<Action>)
    requires Inv(s) && Runs(s, acts)
    ensures Inv(After(s, acts))
    decreases |acts|
  {
    if acts != [] {
      StepKeepsInv(s, acts[0]);
      RunKeepsInv(Apply(s, acts[0]), acts[1..]);
    }
  }
}
