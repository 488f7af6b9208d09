/** The watchdog's retries of a tunnel that is down: growing intervals, reset by a
    tunnel that comes up or by a signal. Times are nanoseconds. */
module HealthRetry {
  import opened Wrappers

  const Second := 1_000_000_000
  const TunnelRetryInterval := 30 * Second
  const TunnelRetryMax := 300 * Second

  /** The loop's own variables; `lastRetry` is `None` after a reset (Go's zero time). */
  datatype State = State(lastRetry: Option<int>, retryInterval: int)

  /** One turn of the loop: the clock, whether the reset signal woke it, whether a
      tunnel is up, and whether an attempt made now would fail. */
  datatype Turn = Turn(now: int, reset: bool, active: bool, fails: bool)

  // ---------------------------------------------------------------------------
  // One turn
  // ---------------------------------------------------------------------------

  function Min(a: int, b: int): int { if a <= b then a else b }

  function Woken(s: State, t: Turn): State {
    if t.reset then State(None, TunnelRetryInterval) else s
  }

  /** The turn starts a tunnel. */
  predicate Attempts(s: State, t: Turn) {
    !t.active && (Woken(s, t).lastRetry.None? || t.now - Woken(s, t).lastRetry.value >= Woken(s, t).retryInterval)
  }

  function Next(s: State, t: Turn): State {
    var w := Woken(s, t);
    if t.active then State(w.lastRetry, TunnelRetryInterval)
    else if !Attempts(s, t) then w
    else State(Some(t.now), if t.fails then Min(w.retryInterval * 2, TunnelRetryMax) else TunnelRetryInterval)
  }

  /** The loop of the watchdog, one turn at a time. */
  class HealthLoop {
    var lastRetry: Option<int>
    var retryInterval: int

    ghost function View(): State
      reads this
    {
      State(lastRetry, retryInterval)
    }

    /** The loop starts as if it had just tried, leaving the first attempt to the boot. */
    constructor (now: int)
      ensures View() == State(Some(now), TunnelRetryInterval)
    {
      lastRetry, retryInterval := Some(now), TunnelRetryInterval;
    }

    method Run(t: Turn) returns (attempted: bool)
      modifies this
      ensures attempted == Attempts(old(View()), t)
      ensures View() == Next(old(View()), t)
      ensures attempted <==>
                !t.active && (t.reset || old(lastRetry).None? || t.now - old(lastRetry).value >= old(retryInterval))
      ensures lastRetry == if attempted then Some(t.now) else if t.reset then None else old(lastRetry)
      ensures var interval := if t.reset then 30_000_000_000 else old(retryInterval);
              retryInterval == if t.active || (attempted && !t.fails) then 30_000_000_000
                               else if attempted && 2 * interval < 300_000_000_000 then 2 * interval
                               else if attempted then 300_000_000_000
                               else interval
    {
      attempted := false;
      if t.reset {
        lastRetry, retryInterval := None, TunnelRetryInterval;
      }
      if t.active {
        retryInterval := TunnelRetryInterval;
        return;
      }
      if lastRetry.None? || t.now - lastRetry.value >= retryInterval {
        lastRetry, attempted := Some(t.now), true;
        if t.fails {
          retryInterval := Min(retryInterval * 2, TunnelRetryMax);
        } else {
          retryInterval := TunnelRetryInterval;
        }
      }
    }
  }

  // ---------------------------------------------------------------------------
  // Runs
  // ---------------------------------------------------------------------------

  function After(s: State, ts: seq<Turn>): State {
    if ts == [] then s else Next(After(s, ts[..|ts| - 1]), ts[|ts| - 1])
  }

  /** How many attempts a run starts. */
  function Count(s: State, ts: seq<Turn>): nat {
    if ts == [] then 0
    else Count(s, ts[..|ts| - 1]) + (if Attempts(After(s, ts[..|ts| - 1]), ts[|ts| - 1]) then 1 else 0)
  }

  function Resets(ts: seq<Turn>): nat {
    if ts == [] then 0 else Resets(ts[..|ts| - 1]) + (if ts[|ts| - 1].reset then 1 else 0)
  }

  /** The clock does not go back. */
  predicate Forward(ts: seq<Turn>) {
    forall i, j :: 0 <= i <= j < |ts| ==> ts[i].now <= ts[j].now
  }

  /** No tunnel, no signal, and every attempt fails. */
  predicate Failing(ts: seq<Turn>) {
    forall i :: 0 <= i < |ts| ==> !ts[i].active && !ts[i].reset && ts[i].fails
  }

  predicate Sane(s: State) {
    TunnelRetryInterval <= s.retryInterval <= TunnelRetryMax
  }

  lemma {:induction false} StaysSane(s: State, ts: seq<Turn>)
    requires Sane(s)
    ensures Sane(After(s, ts))
    decreases |ts|
  {
    if ts != [] {
      StaysSane(s, ts[..|ts| - 1]);
    }
  }

  // ---------------------------------------------------------------------------
  // The interval
  // ---------------------------------------------------------------------------

  function Doubled(k: nat): int {
    if k == 0 then TunnelRetryInterval else 2 * Doubled(k - 1)
  }

  lemma {:induction false} DoubledGrows(k: nat)
    ensures Doubled(k) >= TunnelRetryInterval
    ensures k >= 4 ==> Doubled(k) > TunnelRetryMax
  {
    if k > 4 {
      DoubledGrows(k - 1);
    } else {
      assert Doubled(0) == TunnelRetryInterval && Doubled(1) == 60 * Second && Doubled(2) == 120 * Second;
      assert Doubled(3) == 240 * Second && Doubled(4) == 480 * Second;
    }
  }

  /** How many attempts in a row have failed since the run began, a tunnel was up, a
      signal came or an attempt worked. */
  function FailuresInARow(s: State, ts: seq<Turn>): nat {
    if ts == [] then 0
    else
      var init, t := ts[..|ts| - 1], ts[|ts| - 1];
      var before := if t.reset then 0 else FailuresInARow(s, init);
      if t.active then 0
      else if !Attempts(After(s, init), t) then before
      else if t.fails then before + 1
      else 0
  }

  /** Whatever tunnels and signals come and go, the interval is min(30 * 2^k, 300)
      seconds after k failures in a row. */
  lemma {:induction false} IntervalFromHistory(s: State, ts: seq<Turn>)
    requires s.retryInterval == TunnelRetryInterval
    ensures After(s, ts).retryInterval == Min(Doubled(FailuresInARow(s, ts)), TunnelRetryMax)
    ensures Doubled(0) == 30_000_000_000 && TunnelRetryMax == 300_000_000_000
    decreases |ts|
  {
    hide Attempts;
    if ts != [] {
      var n := |ts| - 1;
      IntervalFromHistory(s, ts[..n]);
      DoubledGrows(FailuresInARow(s, ts[..n]));
    }
  }

  lemma {:induction false} FailingCounts(s: State, ts: seq<Turn>)
    requires Failing(ts)
    ensures FailuresInARow(s, ts) == Count(s, ts)
    decreases |ts|
  {
    hide Attempts, After;
    if ts != [] {
      FailingCounts(s, ts[..|ts| - 1]);
    }
  }

  /** In a run in which every attempt fails, `k` of them leave min(30 * 2^k, 300) seconds. */
  lemma IntervalAfterFailures(s: State, ts: seq<Turn>)
    requires s.retryInterval == TunnelRetryInterval && Failing(ts)
    ensures After(s, ts).retryInterval == Min(Doubled(Count(s, ts)), TunnelRetryMax)
  {
    FailingCounts(s, ts);
    IntervalFromHistory(s, ts);
  }

  // ---------------------------------------------------------------------------
  // Rates
  // ---------------------------------------------------------------------------

  /** The least time `m` attempts in a row take: gaps of 60, 120, 240, then 300 seconds. */
  function Spread(m: nat): int {
    if m <= 1 then 0 else Spread(m - 1) + Min(Doubled(m - 1), TunnelRetryMax)
  }

  lemma {:induction false} SpreadBound(m: nat)
    ensures TunnelRetryMax * m <= Spread(m) + 780 * Second
    ensures m >= 4 ==> Spread(m) == TunnelRetryMax * m - 780 * Second
  {
    DoubledGrows(m);
    if m > 4 {
      SpreadBound(m - 1);
      DoubledGrows(m - 1);
    } else {
      assert Doubled(0) == TunnelRetryInterval && Doubled(1) == 60 * Second;
      assert Doubled(2) == 120 * Second && Doubled(3) == 240 * Second;
      assert Spread(0) == 0 && Spread(1) == 0 && Spread(2) == 60 * Second;
      assert Spread(3) == 180 * Second && Spread(4) == 420 * Second;
    }
  }

  lemma {:induction false} DoublesMonotonically(m: nat, k: nat)
    requires m <= k
    ensures Doubled(m) <= Doubled(k)
    decreases k
  {
    if m < k {
      DoublesMonotonically(m, k - 1);
      DoubledGrows(k - 1);
    }
  }

  /** The attempts of a failing window lie at least `Spread` apart; `k` failures came before it. */
  lemma {:induction false} AttemptsSpread(s: State, k: nat, ts: seq<Turn>)
    requires s.retryInterval == Min(Doubled(k), TunnelRetryMax)
    requires Failing(ts) && Forward(ts) && ts != []
    ensures var m, s' := Count(s, ts), After(s, ts);
            && s'.retryInterval == Min(Doubled(k + m), TunnelRetryMax)
            && (m > 0 ==> s'.lastRetry.Some? && ts[0].now + Spread(m) <= s'.lastRetry.value <= ts[|ts| - 1].now)
    decreases |ts|
  {
    hide Forward;
    var n := |ts| - 1;
    FirstToLast(ts);
    if n == 0 {
      assert ts[..0] == [];
    } else {
      AttemptsSpread(s, k, ts[..n]);
    }
    var m, s0 := Count(s, ts[..n]), After(s, ts[..n]);
    DoubledGrows(k + m);
    DoublesMonotonically(m, k + m);
    AttemptSpreads(s0, ts[n]);
  }

  lemma FirstToLast(ts: seq<Turn>)
    requires Forward(ts) && ts != []
    ensures Forward(ts[..|ts| - 1]) && ts[0].now <= ts[|ts| - 1].now
    ensures |ts| > 1 ==> ts[|ts| - 2].now <= ts[|ts| - 1].now
  {
  }

  lemma AttemptSpreads(s: State, t: Turn)
    requires !t.active && !t.reset && t.fails
    ensures Attempts(s, t) ==> Next(s, t) == State(Some(t.now), Min(s.retryInterval * 2, TunnelRetryMax))
    ensures Attempts(s, t) && s.lastRetry.Some? ==> t.now >= s.lastRetry.value + s.retryInterval
    ensures !Attempts(s, t) ==> Next(s, t) == s
  {
  }

  /** Of a run of failures that began at the first interval, any window of `T` seconds
      holds at most 2.6 + T/300 attempts, and so at most 3 + T/300. */
  lemma FailingRate(s: State, before: seq<Turn>, window: seq<Turn>)
    requires s.retryInterval == TunnelRetryInterval
    requires Failing(before) && Failing(window) && Forward(window) && window != []
    ensures TunnelRetryMax * Count(After(s, before), window)
         <= window[|window| - 1].now - window[0].now + 780 * Second
  {
    IntervalAfterFailures(s, before);
    AttemptsSpread(After(s, before), Count(s, before), window);
    SpreadBound(Count(After(s, before), window));
  }

  /** `m` attempts as close as the intervals allow, after a reset. */
  function Fastest(m: nat): seq<Turn> {
    if m == 0 then [] else Fastest(m - 1) + [Turn(Spread(m), false, false, true)]
  }

  /** The state after `m` of them. */
  function Strained(m: nat): State {
    State(if m == 0 then None else Some(Spread(m)), Min(Doubled(m), TunnelRetryMax))
  }

  lemma FastestTurn(m: nat)
    requires m > 0
    ensures var t := Turn(Spread(m), false, false, true);
            Attempts(Strained(m - 1), t) && Next(Strained(m - 1), t) == Strained(m)
  {
  }

  lemma NothingStrained()
    ensures Strained(0) == State(None, TunnelRetryInterval) && Spread(1) == 0
  {
  }

  lemma {:induction false} FastestRun(m: nat)
    ensures var ts, start := Fastest(m), State(None, TunnelRetryInterval);
            && |ts| == m && Failing(ts) && Count(start, ts) == m && After(start, ts) == Strained(m)
            && (m > 0 ==> ts[0].now == 0 && ts[m - 1].now == Spread(m))
  {
    hide Attempts, Next, Spread, Strained;
    NothingStrained();
    if m > 0 {
      FastestRun(m - 1);
      FastestTurn(m);
      assert Fastest(m)[..m - 1] == Fastest(m - 1);
    }
  }

  /** The bound is met: for every `m` from four on, some failing run makes `m`
      attempts in exactly the time the bound asks for. */
  lemma FailingRateIsMet(m: nat)
    requires m >= 4
    ensures var ts := Fastest(m);
            && |ts| == m && Failing(ts) && Count(State(None, TunnelRetryInterval), ts) == m
            && TunnelRetryMax * m == ts[m - 1].now - ts[0].now + 780 * Second
  {
    FastestRun(m);
    SpreadBound(m);
  }

  /** What the attempts and resets so far say about the last attempt. */
  predicate Paced(start: int, now: int, m: nat, resets: nat, s: State) {
    && Sane(s)
    && (m > 0 ==> match s.lastRetry
                  case Some(l) => start <= l <= now && TunnelRetryInterval * (m - 1 - resets) <= l - start
                  case None => TunnelRetryInterval * (m - resets) <= now - start)
  }

  lemma PacedNext(start: int, now: int, m: nat, resets: nat, s: State, t: Turn)
    requires Paced(start, now, m, resets, s) && start <= now <= t.now
    ensures Paced(start, t.now, m + (if Attempts(s, t) then 1 else 0), resets + (if t.reset then 1 else 0), Next(s, t))
  {
  }

  lemma {:induction false} RunsArePaced(s: State, ts: seq<Turn>)
    requires Sane(s) && Forward(ts) && ts != []
    ensures Paced(ts[0].now, ts[|ts| - 1].now, Count(s, ts), Resets(ts), After(s, ts))
    decreases |ts|
  {
    hide Forward, Paced, Attempts, Next;
    var n := |ts| - 1;
    FirstToLast(ts);
    if n == 0 {
      assert ts[..0] == [];
      NothingPaced(s, ts[0].now);
      PacedNext(ts[0].now, ts[0].now, 0, 0, s, ts[0]);
    } else {
      FirstToLast(ts[..n]);
      RunsArePaced(s, ts[..n]);
      PacedNext(ts[0].now, ts[n - 1].now, Count(s, ts[..n]), Resets(ts[..n]), After(s, ts[..n]), ts[n]);
    }
  }

  lemma NothingPaced(s: State, now: int)
    requires Sane(s)
    ensures Paced(now, now, 0, 0, s)
  {
  }

  /** Whatever tunnels come and go before and during it, a window of `T` seconds with
      `r` reset signals holds at most 1 + r + T/30 retries of a tunnel that is down. */
  lemma AttemptRate(start: int, before: seq<Turn>, window: seq<Turn>)
    requires Forward(window) && window != []
    ensures var s := After(State(Some(start), TunnelRetryInterval), before);
            TunnelRetryInterval * (Count(s, window) - 1 - Resets(window)) <= window[|window| - 1].now - window[0].now
  {
    hide Forward, Resets, Count, After;
    StaysSane(State(Some(start), TunnelRetryInterval), before);
    RunsArePaced(After(State(Some(start), TunnelRetryInterval), before), window);
    FirstToLast(window);
  }

  // ---------------------------------------------------------------------------
  // The loop does not give up
  // ---------------------------------------------------------------------------

  /** While no tunnel is up, a stretch without an attempt ends within five minutes of
      the last one. */
  lemma {:induction false} SilenceIsBounded(s: State, ts: seq<Turn>)
    requires Sane(s) && ts != []
    requires forall i :: 0 <= i < |ts| ==> !ts[i].active
    requires Count(s, ts) == 0
    ensures After(s, ts) == s && s.lastRetry.Some? && Resets(ts) == 0
    ensures ts[|ts| - 1].now - s.lastRetry.value < s.retryInterval <= TunnelRetryMax
    decreases |ts|
  {
    var n := |ts| - 1;
    if n == 0 {
      assert ts[..0] == [];
    } else {
      SilenceIsBounded(s, ts[..n]);
    }
  }
}
