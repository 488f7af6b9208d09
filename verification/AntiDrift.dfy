/** The shield that re-injects the spoofed position when the device reports that it
    has drifted away from it. Times are nanoseconds. */
module AntiDrift {
  import opened Wrappers

  const DriftThresholdMeters := 100.0
  const DriftConfirmFailures := 2
  const DriftReinjectionCooldown := 15_000_000_000

  /** `lastReinjection` is `None` until the first forced re-injection. */
  datatype State = State(driftFailures: nat, lastReinjection: Option<int>)

  const Start := State(0, None)

  /** What happens to the shield: a report of the real position, `dist` metres from
      the position to hold (when there is one), or the end of a forced re-injection
      that worked. A failed one changes nothing. Reports may come in between. */
  datatype Event =
    | Report(hasTarget: bool, dist: real, now: int)
    | Reinjected

  // ---------------------------------------------------------------------------
  // One event
  // ---------------------------------------------------------------------------

  predicate Drifting(e: Event) {
    e.Report? && e.hasTarget && e.dist > DriftThresholdMeters
  }

  /** The event clears the count: a report within tolerance, or a re-injection that worked. */
  predicate Settles(e: Event) {
    e.Reinjected? || (e.hasTarget && e.dist <= DriftThresholdMeters)
  }

  predicate CooledDown(last: Option<int>, now: int) {
    last.None? || now - last.value > DriftReinjectionCooldown
  }

  predicate Forces(s: State, e: Event) {
    Drifting(e) && s.driftFailures + 1 >= DriftConfirmFailures && CooledDown(s.lastReinjection, e.now)
  }

  function Next(s: State, e: Event): State {
    if Drifting(e) then State(s.driftFailures + 1, if Forces(s, e) then Some(e.now) else s.lastReinjection)
    else if Settles(e) then s.(driftFailures := 0)
    else s
  }

  class Shield {
    var driftFailures: nat
    var lastReinjection: Option<int>

    ghost function View(): State
      reads this
    {
      State(driftFailures, lastReinjection)
    }

    constructor ()
      ensures View() == Start
    {
      driftFailures, lastReinjection := 0, None;
    }

    /** The first locked section of a report; `force` asks for a re-injection. */
    method ReportRealLocation(hasTarget: bool, dist: real, now: int) returns (force: bool)
      modifies this
      ensures force == Forces(old(View()), Report(hasTarget, dist, now))
      ensures View() == Next(old(View()), Report(hasTarget, dist, now))
      ensures force <==>
                && hasTarget && dist > 100.0 && old(driftFailures) >= 1
                && (old(lastReinjection).None? || now - old(lastReinjection).value > 15_000_000_000)
      ensures driftFailures == if !hasTarget then old(driftFailures)
                               else if dist > 100.0 then old(driftFailures) + 1 else 0
      ensures lastReinjection == if force then Some(now) else old(lastReinjection)
    {
      force := false;
      if !hasTarget {
        return;
      }
      if dist > DriftThresholdMeters {
        driftFailures := driftFailures + 1;
        if driftFailures >= DriftConfirmFailures && CooledDown(lastReinjection, now) {
          force := true;
          lastReinjection := Some(now);
        }
      } else {
        driftFailures := 0;
      }
    }

    /** The second one, after the forced re-injection. */
    method FinishReinjection(worked: bool)
      modifies this
      ensures View() == if worked then Next(old(View()), Reinjected) else old(View())
      ensures View() == State(if worked then 0 else old(driftFailures), old(lastReinjection))
    {
      if worked {
        driftFailures := 0;
      }
    }
  }

  // ---------------------------------------------------------------------------
  // Runs, read off the events alone
  // ---------------------------------------------------------------------------

  function After(es: seq<Event>): State {
    if es == [] then Start else Next(After(es[..|es| - 1]), es[|es| - 1])
  }

  /** Event `i` of the run forces a re-injection. */
  predicate ForcesAt(es: seq<Event>, i: nat)
    requires i < |es|
  {
    Forces(After(es[..i]), es[i])
  }

  predicate ForcedWhen(es: seq<Event>, i: nat, t: int) {
    i < |es| && ForcesAt(es, i) && es[i].Report? && es[i].now == t
  }

  /** How many drifting reports came since the last event that cleared the count. */
  function Streak(es: seq<Event>): nat {
    if es == [] then 0
    else if Drifting(es[|es| - 1]) then Streak(es[..|es| - 1]) + 1
    else if Settles(es[|es| - 1]) then 0
    else Streak(es[..|es| - 1])
  }

  /** Two drifting reports, the second at `i`, with nothing between that clears the count. */
  predicate ConfirmedAt(es: seq<Event>, i: nat)
    requires i < |es|
  {
    Drifting(es[i]) && exists j :: 0 <= j < i && DriftsUntil(es, j, i)
  }

  predicate DriftsUntil(es: seq<Event>, j: nat, i: nat)
    requires j <= i <= |es|
  {
    j < |es| && Drifting(es[j]) && forall k :: j < k < i ==> !Settles(es[k])
  }

  /** A forced re-injection happened less than the cooldown before `i`. */
  ghost predicate CoolingAt(es: seq<Event>, i: nat)
    requires i < |es| && es[i].Report?
  {
    exists j, t :: 0 <= j < i && ForcedWhen(es, j, t) && es[i].now - t <= DriftReinjectionCooldown
  }

  predicate Forward(es: seq<Event>) {
    forall i, j :: 0 <= i <= j < |es| && es[i].Report? && es[j].Report? ==> es[i].now <= es[j].now
  }

  lemma {:induction false} CountIsStreak(es: seq<Event>)
    ensures After(es).driftFailures == Streak(es)
    decreases |es|
  {
    if es != [] {
      CountIsStreak(es[..|es| - 1]);
    }
  }

  lemma {:induction false} StreakShows(es: seq<Event>)
    ensures Streak(es) > 0 <==> exists j :: 0 <= j < |es| && DriftsUntil(es, j, |es|)
    decreases |es|
  {
    if es != [] {
      var n := |es| - 1;
      var init := es[..n];
      StreakShows(init);
      if Drifting(es[n]) {
        assert DriftsUntil(es, n, |es|);
      } else {
        forall j | 0 <= j < n && !Settles(es[n]) ensures DriftsUntil(es, j, |es|) <==> DriftsUntil(init, j, n) {
          assert forall k :: j < k < n ==> init[k] == es[k];
        }
      }
    }
  }

  /** The shield remembers the time of its last forced re-injection. */
  ghost predicate Remembers(es: seq<Event>, last: Option<int>) {
    && (last.Some? ==> exists j :: 0 <= j < |es| && ForcedWhen(es, j, last.value))
    && (forall j, t | ForcedWhen(es, j, t) :: last.Some? && t <= last.value)
  }

  lemma {:induction false} RemembersTheLast(es: seq<Event>)
    requires Forward(es)
    ensures Remembers(es, After(es).lastReinjection)
    decreases |es|
  {
    hide Forces, Next, ForcedWhen;
    if es == [] {
      forall j, t ensures !ForcedWhen(es, j, t) { NotBefore(es, j, t); }
    } else {
      var n := |es| - 1;
      RemembersTheLast(es[..n]);
      forall j, t ensures ForcedWhen(es, j, t) <==> ForcedWhen(es[..n], j, t) || (j == n && ForcedWhen(es, n, t)) {
        SameForces(es, n, j, t);
      }
      RemembersNext(es, After(es[..n]).lastReinjection);
    }
  }

  lemma NotBefore(es: seq<Event>, j: nat, t: int)
    requires |es| <= j
    ensures !ForcedWhen(es, j, t)
  {
  }

  lemma SameForces(es: seq<Event>, n: nat, j: nat, t: int)
    requires n <= |es|
    ensures ForcedWhen(es[..n], j, t) <==> j < n && ForcedWhen(es, j, t)
    ensures j > n && n + 1 == |es| ==> !ForcedWhen(es, j, t)
  {
    if j < n {
      assert es[..n][..j] == es[..j];
    }
  }

  lemma RemembersNext(es: seq<Event>, last: Option<int>)
    requires es != [] && Forward(es)
    requires Remembers(es[..|es| - 1], last) && last == After(es[..|es| - 1]).lastReinjection
    requires forall j, t ::
               ForcedWhen(es, j, t) <==> ForcedWhen(es[..|es| - 1], j, t) || (j == |es| - 1 && ForcedWhen(es, j, t))
    ensures Remembers(es, After(es).lastReinjection)
  {
    hide Forces, Next, Forward;
    var n := |es| - 1;
    ForcingSetsTheTime(After(es[..n]), es[n]);
    var last' := After(es).lastReinjection;
    if ForcesAt(es, n) {
      assert ForcedWhen(es, n, es[n].now);
      forall j, t | ForcedWhen(es, j, t) ensures t <= es[n].now {
        InOrder(es, j, n);
      }
    } else if last'.Some? {
      var j :| 0 <= j < n && ForcedWhen(es[..n], j, last.value);
      assert ForcedWhen(es, j, last.value);
    }
  }

  lemma InOrder(es: seq<Event>, j: nat, n: nat)
    requires Forward(es) && j <= n < |es| && es[j].Report? && es[n].Report?
    ensures es[j].now <= es[n].now
  {
  }

  lemma ForcingSetsTheTime(s: State, e: Event)
    ensures Forces(s, e) ==> e.Report? && Next(s, e).lastReinjection == Some(e.now)
    ensures !Forces(s, e) ==> Next(s, e).lastReinjection == s.lastReinjection
  {
  }

  // ---------------------------------------------------------------------------
  // The discipline
  // ---------------------------------------------------------------------------

  lemma ForcedWhenConfirmed(es: seq<Event>, i: nat)
    requires i < |es| && Forward(es)
    ensures ForcesAt(es, i) <==> ConfirmedAt(es, i) && !CoolingAt(es, i)
  {
    hide CoolingAt, Forward;
    CountIsStreak(es[..i]);
    StreakShows(es[..i]);
    SamePast(es, i);
    if Drifting(es[i]) {
      Cooling(es, i);
    }
  }

  lemma ConfirmedExactly(es: seq<Event>, i: nat)
    requires i < |es|
    ensures ConfirmedAt(es, i) <==>
            && es[i].Report? && es[i].hasTarget && es[i].dist > 100.0
            && exists j :: 0 <= j < i && es[j].Report? && es[j].hasTarget && es[j].dist > 100.0
                 && forall k :: j < k < i ==> es[k] != Reinjected && !(es[k].hasTarget && es[k].dist <= 100.0)
  {
    forall j | 0 <= j < i
      ensures DriftsUntil(es, j, i) <==>
              && es[j].Report? && es[j].hasTarget && es[j].dist > 100.0
              && forall k :: j < k < i ==> es[k] != Reinjected && !(es[k].hasTarget && es[k].dist <= 100.0)
    {
      assert forall k :: j < k < i ==>
               (Settles(es[k]) <==> !(es[k] != Reinjected && !(es[k].hasTarget && es[k].dist <= 100.0)));
    }
  }

  lemma CoolingExactly(es: seq<Event>, i: nat)
    requires i < |es| && es[i].Report?
    ensures CoolingAt(es, i) <==>
            exists j :: 0 <= j < i && ForcesAt(es, j) && es[j].Report? && es[i].now - es[j].now <= 15_000_000_000
  {
    hide ForcesAt;
    if j :| 0 <= j < i && ForcesAt(es, j) && es[j].Report? && es[i].now - es[j].now <= 15_000_000_000 {
      assert ForcedWhen(es, j, es[j].now);
    }
    if CoolingAt(es, i) {
      var j, t :| 0 <= j < i && ForcedWhen(es, j, t) && es[i].now - t <= DriftReinjectionCooldown;
      assert ForcesAt(es, j);
    }
  }

  /** A re-injection is forced exactly by a report of a device more than 100 m away,
      after an earlier one with nothing between them that found it nearer or put it
      back, when none was forced in the fifteen seconds before. */
  lemma ForcedExactly(es: seq<Event>, i: nat)
    requires i < |es| && Forward(es)
    ensures ForcesAt(es, i) <==>
            && es[i].Report? && es[i].hasTarget && es[i].dist > 100.0
            && (exists j :: 0 <= j < i && es[j].Report? && es[j].hasTarget && es[j].dist > 100.0
                  && forall k :: j < k < i ==> es[k] != Reinjected && !(es[k].hasTarget && es[k].dist <= 100.0))
            && !(exists j :: 0 <= j < i && ForcesAt(es, j) && es[j].Report? && es[i].now - es[j].now <= 15_000_000_000)
  {
    ForcedWhenConfirmed(es, i);
    hide ForcesAt;
    ConfirmedExactly(es, i);
    if es[i].Report? {
      CoolingExactly(es, i);
    }
  }

  lemma SamePast(es: seq<Event>, i: nat)
    requires i < |es|
    ensures ConfirmedAt(es, i) <==> Drifting(es[i]) && exists j :: 0 <= j < i && DriftsUntil(es[..i], j, i)
  {
    hide Drifting, Settles;
    var init := es[..i];
    forall j | 0 <= j < i ensures DriftsUntil(es, j, i) == DriftsUntil(init, j, i) {
      assert forall k :: j <= k < i ==> init[k] == es[k];
    }
  }

  lemma Cooling(es: seq<Event>, i: nat)
    requires i < |es| && es[i].Report? && Forward(es)
    ensures CoolingAt(es, i) <==> !CooledDown(After(es[..i]).lastReinjection, es[i].now)
  {
    hide After, ForcedWhen;
    PrefixForward(es, i);
    RemembersTheLast(es[..i]);
    forall j: nat, t ensures ForcedWhen(es[..i], j, t) <==> j < i && ForcedWhen(es, j, t) { SameForces(es, i, j, t); }
  }

  lemma PrefixForward(es: seq<Event>, i: nat)
    requires i <= |es| && Forward(es)
    ensures Forward(es[..i])
  {
  }

  /** Any two forced re-injections are more than fifteen seconds apart. */
  lemma ReinjectionsAreSpaced(es: seq<Event>, j: nat, i: nat)
    requires j < i < |es| && Forward(es) && ForcesAt(es, j) && ForcesAt(es, i)
    ensures es[j].Report? && es[i].Report? && es[i].now - es[j].now > 15_000_000_000
  {
    ForcedWhenConfirmed(es, i);
    assert ForcedWhen(es, j, es[j].now);
  }
}
