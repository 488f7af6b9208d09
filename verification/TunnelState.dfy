/** The part of the engine that starting a tunnel and switching drivers share: the
    critical sections of `StartTunnel`, `SwitchDriver` and the other writers of the
    same fields, as functions on values and as the methods of the engine.

    Drivers are numbered as they are created and so are the calls in progress.
    `up` is the world outside: the drivers whose tunnel is running. */
module TunnelState {
  import opened Wrappers

  type Driver = nat
  type Call = nat

  datatype Activity = Idle | Starting | Ready | Running | Moving | Paused

  datatype Shared = Shared(
    drv: Driver,
    generation: nat,
    activity: Activity,
    tunnelActive: bool,
    deviceInfo: Option<Driver>,
    activeStartCancel: Option<Call>,
    cancelled: set<Call>,
    tunnelMu: Option<Call>,
    up: set<Driver>,
    created: nat)

  // ---------------------------------------------------------------------------
  // StartTunnel
  // ---------------------------------------------------------------------------

  /** First critical section, after the early return on an active tunnel. */
  function EnterStart(s: Shared, c: Call): Shared {
    s.(activeStartCancel := Some(c), activity := if s.activity == Idle then Starting else s.activity)
  }

  predicate IsCurrent(s: Shared, generation: nat, drv: Driver) {
    s.generation == generation && s.drv == drv
  }

  function CommitStart(s: Shared, drv: Driver): Shared {
    s.(tunnelActive := true,
       deviceInfo := Some(drv),
       activity := if s.activity == Idle || s.activity == Starting then Ready else s.activity)
  }

  function ResetStart(s: Shared, generation: nat, drv: Driver): Shared {
    if IsCurrent(s, generation, drv) && s.activity == Starting then s.(activity := Idle) else s
  }

  function ClearActiveStart(s: Shared, generation: nat): Shared {
    if s.generation == generation then s.(activeStartCancel := None) else s
  }

  // ---------------------------------------------------------------------------
  // SwitchDriver
  // ---------------------------------------------------------------------------

  function BumpGeneration(s: Shared): Shared {
    s.(generation := s.generation + 1,
       cancelled := if s.activeStartCancel.Some? then s.cancelled + {s.activeStartCancel.value} else s.cancelled)
  }

  function AbandonSwitch(s: Shared): Shared {
    s.(activeStartCancel := None, activity := if s.activity == Starting then Idle else s.activity)
  }

  /** `driver.New` succeeded; its driver gets the next number. */
  function InstallDriver(s: Shared): Shared {
    s.(drv := s.created, created := s.created + 1, tunnelActive := false, activity := Idle, deviceInfo := None)
  }

  // ---------------------------------------------------------------------------
  // The outside world and the other writers
  // ---------------------------------------------------------------------------

  function TunnelUp(s: Shared, drv: Driver): Shared {
    s.(up := s.up + {drv})
  }

  function TunnelDown(s: Shared, drv: Driver): Shared {
    s.(up := s.up - {drv})
  }

  function MarkTunnelLost(s: Shared): Shared {
    if !s.tunnelActive then s
    else
      s.(tunnelActive := false,
         activity := if s.activity == Ready || s.activity == Running then Idle else s.activity)
  }

  function ApplyTunnelUpdate(s: Shared): Shared {
    s.(tunnelActive := true)
  }

  /** When, if at all, a switch announces itself while a start holds the lock. */
  datatype Overtaken = Never | BeforeCheck | AfterCheck

  // ---------------------------------------------------------------------------
  // The engine
  // ---------------------------------------------------------------------------

  class Engine {
    var drv: Driver
    var driverGeneration: nat
    var activity: Activity
    var tunnelActive: bool
    var deviceInfo: Option<Driver>
    var activeStartCancel: Option<Call>
    var cancelled: set<Call>
    var tunnelMu: Option<Call>
    var up: set<Driver>
    var created: nat

    ghost function View(): Shared
      reads this
    {
      Shared(drv, driverGeneration, activity, tunnelActive, deviceInfo,
             activeStartCancel, cancelled, tunnelMu, up, created)
    }

    constructor ()
      ensures View() == Shared(0, 0, Idle, false, None, None, {}, None, {}, 1)
    {
      drv, driverGeneration, activity, tunnelActive := 0, 0, Idle, false;
      deviceInfo, activeStartCancel, cancelled := None, None, {};
      tunnelMu, up, created := None, {}, 1;
    }

    method IsCurrentDriverGeneration(generation: nat, d: Driver) returns (current: bool)
      ensures current == IsCurrent(View(), generation, d)
    {
      current := driverGeneration == generation && drv == d;
    }

    method ClearActive(generation: nat)
      modifies this
      ensures View() == ClearActiveStart(old(View()), generation)
    {
      if driverGeneration == generation {
        activeStartCancel := None;
      }
    }

    method MarkLost()
      modifies this
      ensures View() == MarkTunnelLost(old(View()))
      ensures !old(tunnelActive) ==> View() == old(View())
      ensures old(tunnelActive) ==>
                View() == Shared(old(drv), old(driverGeneration),
                                 if old(activity) == Ready || old(activity) == Running then Idle else old(activity),
                                 false, old(deviceInfo), old(activeStartCancel), old(cancelled), old(tunnelMu),
                                 old(up), old(created))
    {
      if !tunnelActive {
        return;
      }
      tunnelActive := false;
      if activity == Ready || activity == Running {
        activity := Idle;
      }
    }

    method ApplyUpdate()
      modifies this
      ensures View() == ApplyTunnelUpdate(old(View()))
      ensures View() == Shared(old(drv), old(driverGeneration), old(activity), true, old(deviceInfo),
                               old(activeStartCancel), old(cancelled), old(tunnelMu), old(up), old(created))
    {
      tunnelActive := true;
    }

    /** Lines 177-190 of `StartTunnel`, past the early return. */
    method EnterStartSection(call: Call)
      modifies this
      ensures View() == EnterStart(old(View()), call)
    {
      activeStartCancel := Some(call);
      if activity == Idle {
        activity := Starting;
      }
    }

    method CommitSection(d: Driver)
      modifies this
      ensures View() == CommitStart(old(View()), d)
    {
      tunnelActive := true;
      deviceInfo := Some(d);
      if activity == Idle || activity == Starting {
        activity := Ready;
      }
    }

    method ResetSection(generation: nat, d: Driver)
      modifies this
      ensures View() == ResetStart(old(View()), generation, d)
    {
      if driverGeneration == generation && drv == d && activity == Starting {
        activity := Idle;
      }
    }

    method BumpSection() returns (oldDrv: Driver)
      modifies this
      ensures oldDrv == old(drv)
      ensures View() == BumpGeneration(old(View()))
    {
      oldDrv := drv;
      driverGeneration := driverGeneration + 1;
      if activeStartCancel.Some? {
        cancelled := cancelled + {activeStartCancel.value};
      }
    }

    method AbandonSection()
      modifies this
      ensures View() == AbandonSwitch(old(View()))
    {
      activeStartCancel := None;
      if activity == Starting {
        activity := Idle;
      }
    }

    method InstallSection()
      modifies this
      ensures View() == InstallDriver(old(View()))
    {
      drv := created;
      created := created + 1;
      tunnelActive := false;
      activity := Idle;
      deviceInfo := None;
    }

    /** `StartTunnel` on a free lock. `works` is the driver's answer and `overtaken`
        says when a switch announces itself meanwhile, which is all another switch
        can do before the lock is released: not at all, before the start asks whether
        it is still current, or after that. */
    method StartTunnel(call: Call, works: bool, overtaken: Overtaken) returns (ok: bool)
      requires tunnelMu == None
      modifies this
      ensures tunnelMu == None && drv == old(drv) && created == old(created)
      ensures old(tunnelActive) ==> ok && View() == old(View())
      ensures !old(tunnelActive) && overtaken == Never ==>
                && ok == works && tunnelActive == works
                && driverGeneration == old(driverGeneration) && activeStartCancel == None && cancelled == old(cancelled)
                && up == (if works then old(up) + {drv} else old(up))
                && deviceInfo == (if works then Some(drv) else old(deviceInfo))
                && activity == (if old(activity) != Idle && old(activity) != Starting then old(activity)
                                else if works then Ready else Idle)
      ensures !old(tunnelActive) && overtaken == BeforeCheck ==>
                && ok && !tunnelActive && deviceInfo == old(deviceInfo)
                && driverGeneration == old(driverGeneration) + 1 && cancelled == old(cancelled) + {call}
                && activeStartCancel == Some(call)
                && up == (if works then old(up) - {drv} else old(up))
                && activity == (if old(activity) == Idle then Starting else old(activity))
      ensures !old(tunnelActive) && overtaken == AfterCheck ==>
                && ok == works && tunnelActive == works
                && driverGeneration == old(driverGeneration) + 1 && cancelled == old(cancelled) + {call}
                && activeStartCancel == Some(call)
                && up == (if works then old(up) + {drv} else old(up))
                && deviceInfo == (if works then Some(drv) else old(deviceInfo))
                && activity == (if old(activity) != Idle && old(activity) != Starting then old(activity)
                                else if works then Ready else Starting)
    {
      tunnelMu := Some(call);
      if tunnelActive {
        tunnelMu := None;
        return true;
      }
      var d, generation := drv, driverGeneration;
      EnterStartSection(call);
      if overtaken == BeforeCheck {
        var _ := BumpSection();
      }
      ok := true;
      if works {
        up := up + {d};
      }
      var current := IsCurrentDriverGeneration(generation, d);
      if overtaken == AfterCheck {
        var _ := BumpSection();
      }
      if works && current {
        CommitSection(d);
      } else if works {
        up := up - {d};
      } else if current {
        ResetSection(generation, d);
        ok := false;
      }
      ClearActive(generation);
      tunnelMu := None;
    }

    /** `SwitchDriver` on a free lock. `builds` says whether `driver.New` succeeds and
        `works` whether the new driver's tunnel then starts, `overtaken` when another
        switch announces itself during that start. The old driver's tunnel is stopped
        even when the new driver cannot be built, and then `tunnelActive` keeps its
        old value. */
    method SwitchDriver(call: Call, builds: bool, works: bool, overtaken: Overtaken) returns (ok: bool)
      requires tunnelMu == None
      modifies this
      ensures tunnelMu == None
      ensures ok == (builds && (works || overtaken == BeforeCheck))
      ensures driverGeneration == old(driverGeneration) + (if builds && overtaken != Never then 2 else 1)
      ensures cancelled == old(cancelled)
                           + (if old(activeStartCancel).Some? then {old(activeStartCancel).value} else {})
                           + (if builds && overtaken != Never then {call} else {})
      ensures !builds ==>
                && drv == old(drv) && created == old(created) && up == old(up) - {old(drv)}
                && tunnelActive == old(tunnelActive) && deviceInfo == old(deviceInfo) && activeStartCancel == None
                && activity == (if old(activity) == Starting then Idle else old(activity))
      ensures builds ==>
                && drv == old(created) && created == old(created) + 1
                && activeStartCancel == (if overtaken == Never then None else Some(call))
                && up - {drv} == old(up) - {old(drv)} - {drv}
                && tunnelActive == (works && overtaken != BeforeCheck)
                && deviceInfo == (if tunnelActive then Some(drv) else None)
                && activity == (if tunnelActive then Ready else if overtaken == Never then Idle else Starting)
      ensures builds ==> (drv in up <==> if works then overtaken != BeforeCheck else drv in old(up) && drv != old(drv))
    {
      var oldDrv := BumpSection();
      tunnelMu := Some(call);
      up := up - {oldDrv};
      if !builds {
        AbandonSection();
        tunnelMu := None;
        return false;
      }
      InstallSection();
      tunnelMu := None;
      ok := StartTunnel(call, works, overtaken);
    }
  }
}
