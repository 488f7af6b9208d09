/** The per-address limiter of pairing attempts: five at once, then one every ten
    seconds, with idle entries pruned after thirty minutes. */
module PairThrottle {
  import opened TokenBucket

  type Address = string
  type Buckets = map<Address, Bucket>

  const PairBurst := 5.0
  const PairRate := 0.1
  const PairEntryTTL := 1800.0

  // ---------------------------------------------------------------------------
  // The operations as functions
  // ---------------------------------------------------------------------------

  function Pruned(m: Buckets, now: real): Buckets {
    map ip | ip in m && !(now - m[ip].last > PairEntryTTL) :: m[ip]
  }

  /** The level an attempt from `ip` finds: a full bucket when there is none. */
  function LevelFor(m: Buckets, ip: Address, now: real): real {
    if ip in m then Level(m[ip], now, PairRate, PairBurst) else PairBurst
  }

  /** An attempt on a map that is not pruned. */
  function Attempted(m: Buckets, ip: Address, now: real): Buckets {
    m[ip := if ip in m then Attempt(m[ip], now, PairRate, PairBurst) else Bucket(PairBurst - 1.0, now)]
  }

  function Refunded(m: Buckets, ip: Address): Buckets {
    if ip in m then m[ip := Refund(m[ip], PairBurst)] else m
  }

  // ---------------------------------------------------------------------------
  // The throttle
  // ---------------------------------------------------------------------------

  class Throttle {
    var buckets: Buckets

    constructor ()
      ensures buckets == map[]
    {
      buckets := map[];
    }

    method PruneLocked(now: real)
      modifies this
      ensures buckets == Pruned(old(buckets), now)
      ensures forall ip :: ip in buckets <==> ip in old(buckets) && now - old(buckets)[ip].last <= 1800.0
      ensures forall ip :: ip in buckets ==> buckets[ip] == old(buckets)[ip]
    {
      var rest := buckets.Keys;
      while rest != {}
        invariant rest <= buckets.Keys <= old(buckets).Keys
        invariant forall ip :: ip in buckets ==> buckets[ip] == old(buckets)[ip]
        invariant forall ip :: ip in old(buckets) && ip !in rest ==>
                    (ip in buckets <==> !(now - old(buckets)[ip].last > PairEntryTTL))
        decreases rest
      {
        var ip :| ip in rest;
        rest := rest - {ip};
        if now - buckets[ip].last > PairEntryTTL {
          buckets := buckets - {ip};
        }
      }
    }

    method Allow(ip: Address, now: real) returns (ok: bool)
      modifies this
      ensures ok == (LevelFor(Pruned(old(buckets), now), ip, now) >= 1.0)
      ensures buckets == Attempted(Pruned(old(buckets), now), ip, now)
    {
      PruneLocked(now);
      var b := Bucket(PairBurst, now);
      if ip in buckets {
        b := buckets[ip];
        var elapsed := now - b.last;
        b := b.(tokens := b.tokens + elapsed / 10.0);
        if b.tokens > PairBurst {
          b := b.(tokens := PairBurst);
        }
        b := b.(last := now);
      }
      buckets := buckets[ip := b];
      if b.tokens < 1.0 {
        return false;
      }
      buckets := buckets[ip := b.(tokens := b.tokens - 1.0)];
      ok := true;
    }

    method Refund(ip: Address)
      modifies this
      ensures buckets == Refunded(old(buckets), ip)
      ensures ip !in old(buckets) ==> buckets == old(buckets)
      ensures ip in old(buckets) ==>
                var b := old(buckets)[ip];
                buckets == old(buckets)[ip := Bucket(if b.tokens <= 4.0 then b.tokens + 1.0 else 5.0, b.last)]
    {
      if ip in buckets {
        var b := buckets[ip];
        b := b.(tokens := b.tokens + 1.0);
        if b.tokens > PairBurst {
          b := b.(tokens := PairBurst);
        }
        buckets := buckets[ip := b];
      }
    }
  }

  // ---------------------------------------------------------------------------
  // Traces, with and without pruning
  // ---------------------------------------------------------------------------

  datatype Event = Try(ip: Address, now: real) | GiveBack(ip: Address)

  /** One event; without pruning no entry is ever deleted. */
  function Step(m: Buckets, e: Event, pruning: bool): Buckets {
    match e
    case Try(ip, now) => Attempted(if pruning then Pruned(m, now) else m, ip, now)
    case GiveBack(ip) => Refunded(m, ip)
  }

  predicate Answer(m: Buckets, e: Event, pruning: bool) {
    e.Try? && LevelFor(if pruning then Pruned(m, e.now) else m, e.ip, e.now) >= 1.0
  }

  function Trace(m: Buckets, events: seq<Event>, pruning: bool): Buckets
    decreases |events|
  {
    if events == [] then m else Trace(Step(m, events[0], pruning), events[1..], pruning)
  }

  function Answers(m: Buckets, events: seq<Event>, pruning: bool): seq<bool>
    decreases |events|
  {
    if events == [] then []
    else [Answer(m, events[0], pruning)] + Answers(Step(m, events[0], pruning), events[1..], pruning)
  }

  /** Every attempt is made between `start` and `end` and the clock never goes back. */
  predicate Timely(events: seq<Event>, start: real, end: real)
    decreases |events|
  {
    if events == [] then start <= end
    else match events[0]
      case Try(_, now) => start <= now && Timely(events[1..], now, end)
      case GiveBack(_) => Timely(events[1..], start, end)
  }

  ghost predicate Sane(m: Buckets, now: real) {
    forall ip :: ip in m ==> 0.0 <= m[ip].tokens <= PairBurst && m[ip].last <= now
  }

  lemma StepIsSane(m: Buckets, e: Event, pruning: bool, now: real)
    requires Sane(m, now) && (e.Try? ==> now <= e.now)
    ensures Sane(Step(m, e, pruning), if e.Try? then e.now else now)
  {
  }

  // ---------------------------------------------------------------------------
  // Pruning is invisible
  // ---------------------------------------------------------------------------

  /** `p` is `u` without some entries that have been idle for longer than the limit. */
  ghost predicate Forgets(p: Buckets, u: Buckets, now: real) {
    && p.Keys <= u.Keys
    && (forall ip :: ip in p ==> p[ip] == u[ip])
    && (forall ip :: ip in u && ip !in p ==> now - u[ip].last > PairEntryTTL)
  }

  lemma StepForgetsMore(p: Buckets, u: Buckets, e: Event, now: real)
    requires Forgets(p, u, now) && Sane(u, now) && (e.Try? ==> now <= e.now)
    ensures Forgets(Step(p, e, true), Step(u, e, false), if e.Try? then e.now else now)
    ensures Answer(p, e, true) == Answer(u, e, false)
  {
  }

  /** Whatever the trace of attempts and refunds from any addresses, refunds of
      pruned entries included, the pruned map answers exactly as a map that never
      deletes an entry. */
  lemma {:induction false} PruningIsInvisibleFrom(p: Buckets, u: Buckets, events: seq<Event>, start: real, end: real)
    requires Forgets(p, u, start) && Sane(u, start) && Timely(events, start, end)
    ensures Answers(p, events, true) == Answers(u, events, false)
    decreases |events|
  {
    if events != [] {
      var e := events[0];
      StepForgetsMore(p, u, e, start);
      StepIsSane(u, e, false, start);
      PruningIsInvisibleFrom(Step(p, e, true), Step(u, e, false), events[1..], if e.Try? then e.now else start, end);
    }
  }

  lemma PruningIsInvisible(events: seq<Event>, start: real, end: real)
    requires Timely(events, start, end)
    ensures Answers(map[], events, true) == Answers(map[], events, false)
  {
    PruningIsInvisibleFrom(map[], map[], events, start, end);
  }

  /** And the map stays small: after an attempt it holds only addresses seen within
      the limit. */
  lemma OnlyRecentEntriesRemain(m: Buckets, ip: Address, now: real)
    ensures var after := Step(m, Try(ip, now), true);
            && ip in after
            && after.Keys <= m.Keys + {ip}
            && (forall x :: x in after ==> now - after[x].last <= PairEntryTTL)
  {
  }

  // ---------------------------------------------------------------------------
  // The rate bound
  // ---------------------------------------------------------------------------

  /** Attempts from `ip` that were let through. */
  function Allowed(m: Buckets, events: seq<Event>, ip: Address): nat
    decreases |events|
  {
    if events == [] then 0
    else (if events[0].ip == ip && Answer(m, events[0], true) then 1 else 0)
         + Allowed(Step(m, events[0], true), events[1..], ip)
  }

  function Refunds(events: seq<Event>, ip: Address): nat
    decreases |events|
  {
    if events == [] then 0
    else (if events[0] == GiveBack(ip) then 1 else 0) + Refunds(events[1..], ip)
  }

  /** What an event does to the level of `ip`: an attempt let through costs one, a
      refund gives back at most one, pruning and other addresses change nothing. */
  lemma EventCost(m: Buckets, e: Event, ip: Address, now: real)
    requires Sane(m, now) && (e.Try? ==> now <= e.now)
    ensures var later := if e.Try? then e.now else now;
            LevelFor(Step(m, e, true), ip, later)
            <= LevelFor(m, ip, now) + Refill(now, later, PairRate)
               - (if e.ip == ip && Answer(m, e, true) then 1.0 else 0.0) + (if e == GiveBack(ip) then 1.0 else 0.0)
  {
  }

  lemma {:induction false} WindowCost(m: Buckets, events: seq<Event>, ip: Address, start: real, end: real)
    requires Sane(m, start) && Timely(events, start, end)
    ensures Allowed(m, events, ip) as real
            <= LevelFor(m, ip, start) + Refill(start, end, PairRate) + Refunds(events, ip) as real
    decreases |events|
  {
    if events == [] {
      LevelIsPositive(m, ip, start);
    } else {
      var e := events[0];
      var later := if e.Try? then e.now else start;
      EventCost(m, e, ip, start);
      StepIsSane(m, e, true, start);
      WindowCost(Step(m, e, true), events[1..], ip, later, end);
      RefillAdds(PairRate, start, later, end);
    }
  }

  lemma LevelIsPositive(m: Buckets, ip: Address, now: real)
    requires Sane(m, now)
    ensures LevelFor(m, ip, now) >= 0.0
  {
  }

  lemma {:induction false} TraceIsSane(m: Buckets, events: seq<Event>, start: real, end: real, pruning: bool)
    requires Sane(m, start) && Timely(events, start, end)
    ensures Sane(Trace(m, events, pruning), end)
    decreases |events|
  {
    if events != [] {
      var e := events[0];
      StepIsSane(m, e, pruning, start);
      TraceIsSane(Step(m, e, pruning), events[1..], if e.Try? then e.now else start, end, pruning);
    }
  }

  /** In any window of any trace, the attempts let through from one address, less its
      refunds, are at most five plus one for every ten seconds of the window. */
  lemma PairingRateBound(before: seq<Event>, window: seq<Event>, ip: Address, start: real, since: real, end: real)
    requires Timely(before, start, since) && Timely(window, since, end)
    ensures var m := Trace(map[], before, true);
            Allowed(m, window, ip) as real - Refunds(window, ip) as real <= 5.0 + (end - since) / 10.0
  {
    TraceIsSane(map[], before, start, since, true);
    WindowCost(Trace(map[], before, true), window, ip, since, end);
  }

  // ---------------------------------------------------------------------------
  // Attempts, exactly
  // ---------------------------------------------------------------------------

  predicate IsTry(e: Event, ip: Address) {
    e.Try? && e.ip == ip
  }

  /** Attempts from `ip` that were let through among the events from `since` on and before `until`. */
  function Through(events: seq<Event>, answers: seq<bool>, ip: Address, since: nat, until: nat): nat
    requires until <= |events| == |answers|
  {
    if until <= since then 0
    else
      Through(events, answers, ip, since, until - 1)
      + (if IsTry(events[until - 1], ip) && answers[until - 1] then 1 else 0)
  }

  /** Refunds of `ip` among the same events. */
  function GivenBack(events: seq<Event>, ip: Address, since: nat, until: nat): nat
    requires until <= |events|
  {
    if until <= since then 0
    else GivenBack(events, ip, since, until - 1) + (if events[until - 1] == GiveBack(ip) then 1 else 0)
  }

  /** What the attempts since `i` have cost: those let through, less the refunds. */
  function Net(events: seq<Event>, answers: seq<bool>, ip: Address, i: nat, k: nat): int
    requires k <= |events| == |answers|
  {
    Through(events, answers, ip, i, k) - GivenBack(events, ip, i, k)
  }

  /** What the window from attempt `i` up to event `k` still has to give at `now`. */
  function Slack(events: seq<Event>, answers: seq<bool>, ip: Address, i: nat, k: nat, now: real): real
    requires i < k <= |events| == |answers| && IsTry(events[i], ip)
  {
    PairBurst - Net(events, answers, ip, i, k) as real + Refill(events[i].now, now, PairRate)
  }

  /** `level` is the least of the burst and the slacks of all windows of `ip`. */
  predicate IsLeast(events: seq<Event>, answers: seq<bool>, ip: Address, k: nat, now: real, level: real)
    requires k <= |events| == |answers|
  {
    && level <= PairBurst
    && (forall i :: 0 <= i < k && IsTry(events[i], ip) ==> level <= Slack(events, answers, ip, i, k, now))
    && (level == PairBurst
        || exists i :: 0 <= i < k && IsTry(events[i], ip) && level == Slack(events, answers, ip, i, k, now))
  }

  lemma {:induction false} TraceOfAppend(m: Buckets, events: seq<Event>, e: Event, pruning: bool)
    ensures Trace(m, events + [e], pruning) == Step(Trace(m, events, pruning), e, pruning)
    decreases |events|
  {
    if events == [] {
      assert [e][1..] == [];
    } else {
      assert (events + [e])[0] == events[0] && (events + [e])[1..] == events[1..] + [e];
      TraceOfAppend(Step(m, events[0], pruning), events[1..], e, pruning);
    }
  }

  lemma {:induction false} AnswerAt(m: Buckets, events: seq<Event>, k: nat, pruning: bool)
    requires k < |events|
    ensures |Answers(m, events, pruning)| == |events|
    ensures Answers(m, events, pruning)[k] == Answer(Trace(m, events[..k], pruning), events[k], pruning)
    decreases |events|
  {
    hide Step, Answer;
    if k > 0 {
      assert events[..k][1..] == events[1..][..k - 1];
      AnswerAt(Step(m, events[0], pruning), events[1..], k - 1, pruning);
    } else if |events| > 1 {
      AnswerAt(Step(m, events[0], pruning), events[1..], 0, pruning);
    }
  }

  lemma {:induction false} AnswersEachEvent(m: Buckets, events: seq<Event>, pruning: bool)
    ensures |Answers(m, events, pruning)| == |events|
    decreases |events|
  {
    hide Step, Answer;
    if events != [] {
      AnswersEachEvent(Step(m, events[0], pruning), events[1..], pruning);
    }
  }

  lemma {:induction false} TimelyUpToLast(events: seq<Event>, start: real, end: real)
    requires Timely(events, start, end) && events != []
    ensures var init, e := events[..|events| - 1], events[|events| - 1];
            if e.Try? then Timely(init, start, e.now) && e.now <= end else Timely(init, start, end)
    decreases |events|
  {
    var init := events[..|events| - 1];
    if |events| > 1 {
      assert events[1..][..|events| - 2] == init[1..];
      TimelyUpToLast(events[1..], if events[0].Try? then events[0].now else start, end);
    }
  }

  lemma {:induction false} TimelyPrefix(events: seq<Event>, k: nat, start: real, end: real)
    requires Timely(events, start, end) && k <= |events|
    ensures Timely(events[..k], start, end)
    decreases |events|
  {
    hide Timely;
    if k < |events| {
      var init, e := events[..|events| - 1], events[|events| - 1];
      TimelyUpToLast(events, start, end);
      if e.Try? {
        TimelyLonger(init, start, e.now, end);
      }
      TimelyPrefix(init, k, start, end);
      assert init[..k] == events[..k];
    } else {
      assert events[..k] == events;
    }
  }

  lemma {:induction false} TimelyLonger(events: seq<Event>, start: real, end: real, later: real)
    requires Timely(events, start, end) && end <= later
    ensures Timely(events, start, later)
    decreases |events|
  {
    if events != [] {
      TimelyLonger(events[1..], if events[0].Try? then events[0].now else start, end, later);
    }
  }

  /** An attempt from `ip` at `t`, on a map without pruning, and the level it leaves for `now`. */
  lemma LevelAfterTry(m: Buckets, ip: Address, t: real, now: real)
    ensures var level := LevelFor(m, ip, t);
            && level <= PairBurst
            && (Answer(m, Try(ip, t), false) <==> level >= 1.0)
            && LevelFor(Step(m, Try(ip, t), false), ip, now)
               == Min(PairBurst, level - (if level >= 1.0 then 1.0 else 0.0) + Refill(t, now, PairRate))
  {
  }

  lemma OthersLeaveTheLevel(m: Buckets, e: Event, ip: Address, now: real)
    requires !IsTry(e, ip) && e != GiveBack(ip)
    ensures LevelFor(Step(m, e, false), ip, now) == LevelFor(m, ip, now)
  {
  }

  /** What the cap takes away from a refund, the cap at the next attempt would. */
  lemma RefundRaisesTheLevel(m: Buckets, ip: Address, now: real)
    requires Sane(m, now)
    ensures LevelFor(Step(m, GiveBack(ip), false), ip, now) == Min(PairBurst, LevelFor(m, ip, now) + 1.0)
  {
    if ip in m {
      RefillIsPositive(PairRate, m[ip].last, now);
    }
    hide Refill;
  }

  /** The step of `LevelIsLeast` at an attempt of the address itself. */
  lemma LeastAfterTry(events: seq<Event>, answers: seq<bool>, ip: Address, k: nat, now: real, level: real)
    requires k < |events| == |answers| && IsTry(events[k], ip) && events[k].now <= now
    requires IsLeast(events, answers, ip, k, events[k].now, level) && (answers[k] <==> level >= 1.0)
    ensures IsLeast(events, answers, ip, k + 1, now,
                    Min(PairBurst, level - (if level >= 1.0 then 1.0 else 0.0) + Refill(events[k].now, now, PairRate)))
  {
    hide Refill;
    var t, cost := events[k].now, if level >= 1.0 then 1.0 else 0.0;
    var next := Min(PairBurst, level - cost + Refill(t, now, PairRate));
    forall i | 0 <= i < k && IsTry(events[i], ip)
      ensures Slack(events, answers, ip, i, k + 1, now)
           == Slack(events, answers, ip, i, k, t) - cost + Refill(t, now, PairRate)
    {
      RefillAdds(PairRate, events[i].now, t, now);
    }
    assert Net(events, answers, ip, k, k) == 0;
    assert Slack(events, answers, ip, k, k + 1, now) == PairBurst - cost + Refill(t, now, PairRate);
    if next < PairBurst && level != PairBurst {
      var i :| 0 <= i < k && IsTry(events[i], ip) && level == Slack(events, answers, ip, i, k, t);
      assert next == Slack(events, answers, ip, i, k + 1, now);
    }
  }

  lemma LeastAfterOther(events: seq<Event>, answers: seq<bool>, ip: Address, k: nat, now: real, level: real)
    requires k < |events| == |answers| && !IsTry(events[k], ip) && events[k] != GiveBack(ip)
    requires IsLeast(events, answers, ip, k, now, level)
    ensures IsLeast(events, answers, ip, k + 1, now, level)
  {
    hide Refill;
    forall i | 0 <= i < k && IsTry(events[i], ip)
      ensures Slack(events, answers, ip, i, k + 1, now) == Slack(events, answers, ip, i, k, now)
    {
    }
  }

  lemma LeastAfterRefund(events: seq<Event>, answers: seq<bool>, ip: Address, k: nat, now: real, level: real)
    requires k < |events| == |answers| && events[k] == GiveBack(ip)
    requires IsLeast(events, answers, ip, k, now, level)
    ensures IsLeast(events, answers, ip, k + 1, now, Min(PairBurst, level + 1.0))
  {
    hide Refill;
    forall i | 0 <= i < k && IsTry(events[i], ip)
      ensures Slack(events, answers, ip, i, k + 1, now) == Slack(events, answers, ip, i, k, now) + 1.0
    {
    }
    if level + 1.0 < PairBurst {
      var i :| 0 <= i < k && IsTry(events[i], ip) && level == Slack(events, answers, ip, i, k, now);
      assert level + 1.0 == Slack(events, answers, ip, i, k + 1, now);
    }
  }

  /** Whatever other addresses do, the level of an address is the least slack over all
      its windows. */
  lemma {:induction false} LevelIsLeast(events: seq<Event>, ip: Address, k: nat, start: real, now: real)
    requires k <= |events| == |Answers(map[], events, false)|
    requires Timely(events[..k], start, now)
    ensures IsLeast(events, Answers(map[], events, false), ip, k, now,
                    LevelFor(Trace(map[], events[..k], false), ip, now))
    decreases k
  {
    hide Step, Answer, LevelFor, Timely, Refill, IsLeast, IsTry;
    var answers := Answers(map[], events, false);
    if k == 0 {
      EmptyIsLeast(events, answers, ip, now);
    } else {
      var e, m := events[k - 1], Trace(map[], events[..k - 1], false);
      assert events[..k] == events[..k - 1] + [e] && events[..k][..k - 1] == events[..k - 1];
      TraceOfAppend(map[], events[..k - 1], e, false);
      TimelyUpToLast(events[..k], start, now);
      if IsTry(e, ip) {
        TryOfIp(e, ip);
        LevelIsLeast(events, ip, k - 1, start, e.now);
        AnswerAt(map[], events, k - 1, false);
        LevelAfterTry(m, ip, e.now, now);
        LeastAfterTry(events, answers, ip, k - 1, now, LevelFor(m, ip, e.now));
      } else {
        if e.Try? {
          TimelyLonger(events[..k - 1], start, e.now, now);
        }
        LevelIsLeast(events, ip, k - 1, start, now);
        if e == GiveBack(ip) {
          NothingIsSane(start);
          TraceIsSane(map[], events[..k - 1], start, now, false);
          RefundRaisesTheLevel(m, ip, now);
          LeastAfterRefund(events, answers, ip, k - 1, now, LevelFor(m, ip, now));
        } else {
          OthersLeaveTheLevel(m, e, ip, now);
          LeastAfterOther(events, answers, ip, k - 1, now, LevelFor(m, ip, now));
        }
      }
    }
  }

  lemma TryOfIp(e: Event, ip: Address)
    requires IsTry(e, ip)
    ensures e.Try? && e == Try(ip, e.now)
  {
  }

  lemma EmptyIsLeast(events: seq<Event>, answers: seq<bool>, ip: Address, now: real)
    requires |events| == |answers|
    ensures IsLeast(events, answers, ip, 0, now, LevelFor(Trace(map[], events[..0], false), ip, now))
  {
    assert events[..0] == [];
  }

  lemma NothingIsSane(now: real)
    ensures Sane(map[], now)
  {
  }

  /** Over any trace of attempts and refunds from any addresses, an attempt is let
      through if and only if, for each attempt of its address up to this one, those let
      through since then, less the refunds since then, and this one are at most five
      plus one for every ten seconds since then. */
  lemma AttemptsExactly(events: seq<Event>, ip: Address, k: nat, start: real, end: real)
    requires Timely(events, start, end) && k < |events| && IsTry(events[k], ip)
    ensures var answers := Answers(map[], events, true);
            && |answers| == |events|
            && (answers[k] <==>
                forall i :: 0 <= i <= k && IsTry(events[i], ip) ==>
                  (Net(events, answers, ip, i, k) + 1) as real <= 5.0 + (events[k].now - events[i].now) / 10.0)
  {
    hide Trace, Step, Timely, LevelFor, Answers, Pruned;
    PruningIsInvisible(events, start, end);
    AnswersEachEvent(map[], events, false);
    AnswerAt(map[], events, k, false);
    var answers, now := Answers(map[], events, false), events[k].now;
    TimelyPrefix(events, k + 1, start, end);
    TimelyUpToLast(events[..k + 1], start, end);
    assert events[..k + 1][..k] == events[..k];
    LevelIsLeast(events, ip, k, start, now);
    forall i | 0 <= i < k && IsTry(events[i], ip)
      ensures Slack(events, answers, ip, i, k, now) >= 1.0 <==>
              (Net(events, answers, ip, i, k) + 1) as real <= 5.0 + (now - events[i].now) / 10.0
    {
    }
  }

  // ---------------------------------------------------------------------------
  // What a success gives back
  // ---------------------------------------------------------------------------

  /** A refund fills the bucket exactly when at most one token was missing. */
  lemma RefundFillsExactly(m: Buckets, ip: Address, now: real)
    requires ip in m && Sane(m, now)
    ensures Refunded(m, ip)[ip].tokens == PairBurst <==> m[ip].tokens >= PairBurst - 1.0
    ensures !(m[ip].tokens >= PairBurst - 1.0) ==> Refunded(m, ip)[ip].tokens == m[ip].tokens + 1.0
  {
  }

  /** So it does not give the whole bucket back: three attempts and one success leave
      three tokens of five. */
  lemma SuccessKeepsEarlierCosts(ip: Address, now: real)
    ensures var events := [Try(ip, now), Try(ip, now), Try(ip, now), GiveBack(ip)];
            && Answers(map[], events, true) == [true, true, true, false]
            && LevelFor(Trace(map[], events, true), ip, now) == 3.0
  {
    var t, g := Try(ip, now), GiveBack(ip);
    var m1, m2, m3, m4 := Spent(ip, 4.0, now), Spent(ip, 3.0, now), Spent(ip, 2.0, now), Spent(ip, 3.0, now);
    OneOfThree(ip, now);
    hide Step, Answer, Spent, LevelFor, Trace, Answers;
    OneMore(m3, g, []);
    OneMore(m2, t, [g]);
    OneMore(m1, t, [t, g]);
    OneMore(map[], t, [t, t, g]);
    assert [t] + [t, t, g] == [t, t, t, g] && [t] + [t, g] == [t, t, g] && [t] + [g] == [t, g] && [g] + [] == [g];
    NothingMore(m4);
  }

  lemma OneMore(m: Buckets, e: Event, rest: seq<Event>)
    ensures Answers(m, [e] + rest, true) == [Answer(m, e, true)] + Answers(Step(m, e, true), rest, true)
    ensures Trace(m, [e] + rest, true) == Trace(Step(m, e, true), rest, true)
  {
    assert ([e] + rest)[1..] == rest;
  }

  lemma NothingMore(m: Buckets)
    ensures Answers(m, [], true) == [] && Trace(m, [], true) == m
  {
  }

  /** The map with one entry. */
  function Spent(ip: Address, tokens: real, now: real): Buckets {
    map[ip := Bucket(tokens, now)]
  }

  lemma OneOfThree(ip: Address, now: real)
    ensures Step(map[], Try(ip, now), true) == Spent(ip, 4.0, now) && Answer(map[], Try(ip, now), true)
    ensures forall tokens | 1.0 <= tokens <= PairBurst ::
              && Step(Spent(ip, tokens, now), Try(ip, now), true) == Spent(ip, tokens - 1.0, now)
              && Answer(Spent(ip, tokens, now), Try(ip, now), true)
    ensures Step(Spent(ip, 2.0, now), GiveBack(ip), true) == Spent(ip, 3.0, now)
    ensures !Answer(Spent(ip, 2.0, now), GiveBack(ip), true)
    ensures LevelFor(Spent(ip, 3.0, now), ip, now) == 3.0
  {
    forall tokens | 1.0 <= tokens <= PairBurst
      ensures Step(Spent(ip, tokens, now), Try(ip, now), true) == Spent(ip, tokens - 1.0, now)
    {
      assert Pruned(Spent(ip, tokens, now), now) == Spent(ip, tokens, now);
    }
  }
}
