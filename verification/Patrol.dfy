/** Patrol mode: wandering inside a zone, one step a second. Degrees and metres are
    reals; the distance between two points is any non-negative number. */
module Patrol {
  import opened Wrappers

  datatype Position = Position(lat: real, lon: real)

  /** A random draw from [0, 1). */
  type Draw = r: real | 0.0 <= r < 1.0

  /** A circle yields points by a computation that is not modelled: `drawn` in a tick. */
  datatype Zone =
    | Rectangle(sw: Position, ne: Position)
    | Circle
    | Nowhere

  datatype State = State(current: Position, target: Option<Position>)

  /** What one tick depends on: the draws, the distance to the target in metres, and
      the jitter drawn when it is enabled. */
  datatype Tick = Tick(paused: bool, r: Draw, q: Draw, drawn: Position, dist: real, jitter: Option<(Draw, Draw)>)

  const SpeedMs := 5.0 / 3.6
  const JitterWidth := 0.00001
  const WanderWidth := 0.005
  const DefaultStart := Position(48.8566, 2.3522)

  // ---------------------------------------------------------------------------
  // One tick
  // ---------------------------------------------------------------------------

  function Min(a: real, b: real): real { if a <= b then a else b }

  function Max(a: real, b: real): real { if a <= b then b else a }

  function Lerp(a: real, b: real, f: real): real { a + (b - a) * f }

  /** The part of the way to the target that one step covers. */
  function Fraction(dist: real): real
    requires dist > SpeedMs
  {
    SpeedMs / dist
  }

  function NewTarget(zone: Zone, current: Position, t: Tick): Position {
    match zone
    case Rectangle(sw, ne) =>
      Position(Lerp(Min(sw.lat, ne.lat), Max(sw.lat, ne.lat), t.r), Lerp(Min(sw.lon, ne.lon), Max(sw.lon, ne.lon), t.q))
    case Circle => t.drawn
    case Nowhere =>
      Position(current.lat + (t.r - 0.5) * WanderWidth, current.lon + (t.q - 0.5) * WanderWidth)
  }

  function Toward(zone: Zone, s: State, t: Tick): Position {
    if s.target.Some? then s.target.value else NewTarget(zone, s.current, t)
  }

  function Next(zone: Zone, s: State, t: Tick): State {
    if t.paused then s
    else
      var goal := Toward(zone, s, t);
      if t.dist <= SpeedMs then State(goal, None)
      else
        var f := Fraction(t.dist);
        State(Position(Lerp(s.current.lat, goal.lat, f), Lerp(s.current.lon, goal.lon, f)), Some(goal))
  }

  /** The point sent to the device. */
  function Injected(p: Position, t: Tick): Position {
    if t.jitter.None? then p
    else Position(p.lat + (t.jitter.value.0 - 0.5) * JitterWidth, p.lon + (t.jitter.value.1 - 0.5) * JitterWidth)
  }

  class Patroller {
    const zone: Zone
    var current: Position
    var target: Position
    var hasTarget: bool

    ghost function View(): State
      reads this
    {
      State(current, if hasTarget then Some(target) else None)
    }

    constructor (zone: Zone, lastInjected: Option<Position>)
      ensures this.zone == zone
      ensures View() == State(if lastInjected.Some? then lastInjected.value else DefaultStart, None)
    {
      this.zone := zone;
      current := if lastInjected.Some? then lastInjected.value else DefaultStart;
      target, hasTarget := DefaultStart, false;
    }

    method Step(t: Tick) returns (sent: Option<Position>)
      modifies this
      ensures View() == Next(zone, old(View()), t)
      ensures sent == if t.paused then None else Some(Injected(View().current, t))
      ensures sent.Some? && t.jitter.None? ==> sent.value == current
      ensures sent.Some? && t.jitter.Some? ==>
                && sent.value.lat == current.lat + (t.jitter.value.0 - 0.5) * 0.00001
                && sent.value.lon == current.lon + (t.jitter.value.1 - 0.5) * 0.00001
    {
      hide Lerp, Fraction, Min, Max;
      if t.paused {
        return None;
      }
      if !hasTarget {
        match zone {
          case Rectangle(sw, ne) =>
            var minLat, maxLat := Min(sw.lat, ne.lat), Max(sw.lat, ne.lat);
            var minLon, maxLon := Min(sw.lon, ne.lon), Max(sw.lon, ne.lon);
            target := Position(Lerp(minLat, maxLat, t.r), Lerp(minLon, maxLon, t.q));
          case Circle =>
            target := t.drawn;
          case Nowhere =>
            target := Position(current.lat + (t.r - 0.5) * WanderWidth, current.lon + (t.q - 0.5) * WanderWidth);
        }
        hasTarget := true;
      }
      if t.dist <= SpeedMs {
        current, hasTarget := target, false;
      } else {
        var fraction := Fraction(t.dist);
        current := Position(Lerp(current.lat, target.lat, fraction), Lerp(current.lon, target.lon, fraction));
      }
      var p := current;
      if t.jitter.Some? {
        p := Position(p.lat + (t.jitter.value.0 - 0.5) * JitterWidth, p.lon + (t.jitter.value.1 - 0.5) * JitterWidth);
      }
      sent := Some(p);
    }
  }

  // ---------------------------------------------------------------------------
  // Runs
  // ---------------------------------------------------------------------------

  function After(zone: Zone, s: State, ts: seq<Tick>): State {
    if ts == [] then s else Next(zone, After(zone, s, ts[..|ts| - 1]), ts[|ts| - 1])
  }

  /** How far `x` lies outside the range from `a` to `b`, given in either order. */
  function Outside(x: real, a: real, b: real): real {
    Max(0.0, Max(Min(a, b) - x, x - Max(a, b)))
  }

  predicate Inside(zone: Zone, p: Position)
    requires zone.Rectangle?
  {
    Outside(p.lat, zone.sw.lat, zone.ne.lat) == 0.0 && Outside(p.lon, zone.sw.lon, zone.ne.lon) == 0.0
  }

  /** `p` is no further outside the zone than `q`, in either coordinate. */
  predicate NoFurther(zone: Zone, p: Position, q: Position)
    requires zone.Rectangle?
  {
    && Outside(p.lat, zone.sw.lat, zone.ne.lat) <= Outside(q.lat, zone.sw.lat, zone.ne.lat)
    && Outside(p.lon, zone.sw.lon, zone.ne.lon) <= Outside(q.lon, zone.sw.lon, zone.ne.lon)
  }

  lemma LerpStaysBetween(a: real, b: real, f: real)
    requires 0.0 <= f <= 1.0
    ensures Min(a, b) <= Lerp(a, b, f) <= Max(a, b)
  {
    if a <= b {
      Scaled(b - a, f);
    } else {
      Scaled(a - b, f);
      assert (b - a) * f == -((a - b) * f);
    }
  }

  lemma Scaled(d: real, f: real)
    requires d >= 0.0 && 0.0 <= f <= 1.0
    ensures 0.0 <= d * f <= d
  {
  }

  lemma FractionBelowOne(dist: real)
    requires dist > SpeedMs
    ensures 0.0 <= Fraction(dist) <= 1.0
  {
  }

  lemma StepIsNoFurther(zone: Zone, s: State, t: Tick)
    requires zone.Rectangle? && (s.target.Some? ==> Inside(zone, s.target.value))
    ensures var s' := Next(zone, s, t);
            NoFurther(zone, s'.current, s.current) && (s'.target.Some? ==> Inside(zone, s'.target.value))
  {
    hide Lerp, Fraction;
    LerpStaysBetween(Min(zone.sw.lat, zone.ne.lat), Max(zone.sw.lat, zone.ne.lat), t.r);
    LerpStaysBetween(Min(zone.sw.lon, zone.ne.lon), Max(zone.sw.lon, zone.ne.lon), t.q);
    var goal := Toward(zone, s, t);
    assert Inside(zone, goal);
    if t.dist > SpeedMs {
      FractionBelowOne(t.dist);
      LerpStaysBetween(s.current.lat, goal.lat, Fraction(t.dist));
      LerpStaysBetween(s.current.lon, goal.lon, Fraction(t.dist));
    }
  }

  /** From any start, the patrol never gets further outside its rectangle. */
  lemma {:induction false} NeverFurtherOutside(zone: Zone, s: State, ts: seq<Tick>)
    requires zone.Rectangle? && (s.target.Some? ==> Inside(zone, s.target.value))
    ensures var s' := After(zone, s, ts);
            NoFurther(zone, s'.current, s.current) && (s'.target.Some? ==> Inside(zone, s'.target.value))
    decreases |ts|
  {
    hide Next, Inside, Outside;
    if ts != [] {
      NeverFurtherOutside(zone, s, ts[..|ts| - 1]);
      StepIsNoFurther(zone, After(zone, s, ts[..|ts| - 1]), ts[|ts| - 1]);
    }
  }

  lemma {:induction false} AfterSplit(zone: Zone, s: State, ts: seq<Tick>, us: seq<Tick>)
    ensures After(zone, s, ts + us) == After(zone, After(zone, s, ts), us)
    decreases |us|
  {
    if us == [] {
      assert ts + us == ts;
    } else {
      AfterSplit(zone, s, ts, us[..|us| - 1]);
      assert (ts + us)[..|ts + us| - 1] == ts + us[..|us| - 1];
    }
  }

  /** Over a whole run: once inside the rectangle, always inside; and before that each
      coordinate's distance outside never grows. */
  lemma StaysInRectangle(zone: Zone, start: Position, ts: seq<Tick>, us: seq<Tick>)
    requires zone.Rectangle?
    ensures var earlier, later := After(zone, State(start, None), ts), After(zone, State(start, None), ts + us);
            && NoFurther(zone, later.current, earlier.current)
            && (Inside(zone, earlier.current) ==> Inside(zone, later.current))
  {
    hide After;
    AfterSplit(zone, State(start, None), ts, us);
    NeverFurtherOutside(zone, State(start, None), ts);
    NeverFurtherOutside(zone, After(zone, State(start, None), ts), us);
  }

  /** Each step ends between where it began and where it heads, in both coordinates:
      a patrol never overshoots its target, whatever the zone. */
  lemma NeverOvershoots(zone: Zone, s: State, t: Tick)
    requires !t.paused
    ensures var p, goal, p' := s.current, Toward(zone, s, t), Next(zone, s, t).current;
            && Min(p.lat, goal.lat) <= p'.lat <= Max(p.lat, goal.lat)
            && Min(p.lon, goal.lon) <= p'.lon <= Max(p.lon, goal.lon)
  {
    hide Lerp, Fraction;
    var goal := Toward(zone, s, t);
    if t.dist > SpeedMs {
      FractionBelowOne(t.dist);
      LerpStaysBetween(s.current.lat, goal.lat, Fraction(t.dist));
      LerpStaysBetween(s.current.lon, goal.lon, Fraction(t.dist));
    }
  }

  // ---------------------------------------------------------------------------
  // Where it heads and how far it gets
  // ---------------------------------------------------------------------------

  /** A new target: in a rectangle each coordinate lies as far between the lower and the
      higher bound as its own draw says; without a zone, within 0.0025 degrees. */
  lemma TargetFollowsTheDraws(zone: Zone, s: State, t: Tick)
    ensures s.target.Some? ==> Toward(zone, s, t) == s.target.value
    ensures s.target.None? && zone.Rectangle? ==>
              var goal := Toward(zone, s, t);
              var (south, north) := if zone.sw.lat <= zone.ne.lat then (zone.sw.lat, zone.ne.lat)
                                    else (zone.ne.lat, zone.sw.lat);
              var (west, east) := if zone.sw.lon <= zone.ne.lon then (zone.sw.lon, zone.ne.lon)
                                  else (zone.ne.lon, zone.sw.lon);
              goal.lat - south == t.r * (north - south) && goal.lon - west == t.q * (east - west)
    ensures s.target.None? && zone.Circle? ==> Toward(zone, s, t) == t.drawn
    ensures s.target.None? && zone.Nowhere? ==>
              var goal := Toward(zone, s, t);
              && goal.lat - s.current.lat == (t.r - 0.5) * 0.005
              && goal.lon - s.current.lon == (t.q - 0.5) * 0.005
  {
  }

  /** `x` is `metres` of the way of `dist` metres from `p` to `q`. */
  predicate LiesAt(x: Position, p: Position, q: Position, dist: real, metres: real) {
    && (x.lat - p.lat) * dist == (q.lat - p.lat) * metres
    && (x.lon - p.lon) * dist == (q.lon - p.lon) * metres
  }

  lemma FractionCovers(dist: real, f: real)
    requires dist > SpeedMs && f == Fraction(dist)
    ensures f * dist == SpeedMs
  {
  }

  lemma FiveKilometresAnHour()
    ensures SpeedMs * 3.6 == 5.0
  {
  }

  lemma Regroup(x: real, y: real, z: real)
    ensures (x * y) * z == x * (y * z)
  {
  }

  lemma LerpCovers(p: Position, q: Position, f: real, dist: real, metres: real)
    requires f * dist == metres
    ensures LiesAt(Position(Lerp(p.lat, q.lat, f), Lerp(p.lon, q.lon, f)), p, q, dist, metres)
  {
    Regroup(q.lat - p.lat, f, dist);
    Regroup(q.lon - p.lon, f, dist);
  }

  /** A tick covers exactly 5/3.6 metres of the way to the target, in a straight line, and
      keeps the target; within that distance it reaches the target and drops it. A paused
      patrol stays where it is. */
  lemma StepCovers(zone: Zone, s: State, t: Tick)
    ensures SpeedMs * 3.6 == 5.0
    ensures t.paused ==> Next(zone, s, t) == s
    ensures !t.paused && t.dist <= SpeedMs ==> Next(zone, s, t) == State(Toward(zone, s, t), None)
    ensures !t.paused && t.dist > SpeedMs ==>
              var s', goal := Next(zone, s, t), Toward(zone, s, t);
              s'.target == Some(goal) && LiesAt(s'.current, s.current, goal, t.dist, SpeedMs)
  {
    hide Lerp, Fraction, LiesAt, Toward;
    if t.dist > SpeedMs {
      var f := Fraction(t.dist);
      FractionCovers(t.dist, f);
      LerpCovers(s.current, Toward(zone, s, t), f, t.dist, SpeedMs);
    }
    FiveKilometresAnHour();
  }

  /** What is left of `dist` metres after `i` ticks. */
  function Remaining(dist: real, i: int): real {
    dist - i as real * SpeedMs
  }

  lemma NextRemaining(dist: real, i: int)
    ensures Remaining(dist, 0) == dist && Remaining(dist, i + 1) == Remaining(dist, i) - SpeedMs
  {
  }

  /** The patrol is not paused, and the distance to its target shrinks by what each tick
      covers, from `dist` on, and is not down to one tick yet. */
  predicate Approaches(ts: seq<Tick>, dist: real) {
    forall i :: 0 <= i < |ts| ==> !ts[i].paused && ts[i].dist == Remaining(dist, i) > SpeedMs
  }

  lemma LatestApproaches(ts: seq<Tick>, dist: real)
    requires Approaches(ts, dist) && ts != []
    ensures Approaches(ts[..|ts| - 1], dist)
    ensures !ts[|ts| - 1].paused && ts[|ts| - 1].dist == Remaining(dist, |ts| - 1) > SpeedMs
  {
  }

  /** Two stretches of one straight way: `x` is where `rest` of `dist` metres are left,
      and `y` is `step` further. */
  lemma Onward(x: real, y: real, p: real, q: real, dist: real, rest: real, step: real)
    requires (x - p) * dist == (q - p) * (dist - rest) && (y - x) * rest == (q - x) * step && rest > 0.0
    ensures (y - p) * dist == (q - p) * (dist - (rest - step))
  {
    assert (q - x) * dist == (q - p) * rest by {
      assert (q - x) * dist == (q - p) * dist - (x - p) * dist;
      assert (q - p) * (dist - rest) == (q - p) * dist - (q - p) * rest;
    }
    var d, w := (y - x) * dist, (q - p) * step;
    assert d * rest == w * rest by {
      calc {
        d * rest;
        ((y - x) * rest) * dist;
        ((q - x) * step) * dist;
        ((q - x) * dist) * step;
        ((q - p) * rest) * step;
        w * rest;
      }
    }
    SameFactor(d, w, rest);
    assert (y - p) * dist == (x - p) * dist + d;
    assert (q - p) * (dist - (rest - step)) == (q - p) * (dist - rest) + w;
  }

  lemma SameFactor(a: real, b: real, r: real)
    requires a * r == b * r && r > 0.0
    ensures a == b
  {
  }

  lemma StretchesJoin(x: Position, y: Position, p: Position, q: Position, dist: real, rest: real)
    requires LiesAt(x, p, q, dist, dist - rest) && LiesAt(y, x, q, rest, SpeedMs) && rest > SpeedMs
    ensures LiesAt(y, p, q, dist, dist - (rest - SpeedMs))
  {
    Onward(x.lat, y.lat, p.lat, q.lat, dist, rest, SpeedMs);
    Onward(x.lon, y.lon, p.lon, q.lon, dist, rest, SpeedMs);
  }

  lemma NoStretch(p: Position, q: Position, dist: real)
    ensures LiesAt(p, p, q, dist, dist - dist)
  {
  }

  /** Over a whole approach the patrol walks straight to its target at 5 km/h: after `n`
      ticks it is `n` times 5/3.6 metres of the way from where it began. */
  lemma {:induction false} WalksStraight(zone: Zone, s: State, ts: seq<Tick>, dist: real)
    requires s.target.Some? && Approaches(ts, dist)
    ensures var s' := After(zone, s, ts);
            && s'.target == s.target
            && LiesAt(s'.current, s.current, s.target.value, dist, dist - Remaining(dist, |ts|))
    decreases |ts|
  {
    hide LiesAt, Next, Approaches, Remaining;
    NextRemaining(dist, |ts| - 1);
    if ts == [] {
      NoStretch(s.current, s.target.value, dist);
    } else {
      var n := |ts| - 1;
      LatestApproaches(ts, dist);
      WalksStraight(zone, s, ts[..n], dist);
      var before := After(zone, s, ts[..n]);
      StepCovers(zone, before, ts[n]);
      StretchesJoin(before.current, After(zone, s, ts).current, s.current, s.target.value, dist, Remaining(dist, n));
    }
  }

  /** And the tick that finds the rest within one step ends exactly on the target. */
  lemma ReachesItsTarget(zone: Zone, s: State, ts: seq<Tick>, dist: real, last: Tick)
    requires s.target.Some? && Approaches(ts, dist)
    requires !last.paused && last.dist == Remaining(dist, |ts|) <= SpeedMs
    ensures After(zone, s, ts + [last]) == State(s.target.value, None)
  {
    hide LiesAt, Next, Approaches, Remaining;
    WalksStraight(zone, s, ts, dist);
    StepCovers(zone, After(zone, s, ts), last);
    assert (ts + [last])[..|ts|] == ts;
  }

  // ---------------------------------------------------------------------------
  // Jitter
  // ---------------------------------------------------------------------------

  /** The two runs differ only in their jitter. */
  predicate SameButJitter(ts: seq<Tick>, us: seq<Tick>) {
    |ts| == |us| && forall i :: 0 <= i < |ts| ==> us[i] == ts[i].(jitter := us[i].jitter)
  }

  /** Jitter never accumulates: it does not change where the patrol is, after any
      number of ticks, and each point sent is within 0.000005 degrees of there. */
  lemma {:induction false} JitterNeverAccumulates(zone: Zone, s: State, ts: seq<Tick>, us: seq<Tick>)
    requires SameButJitter(ts, us)
    ensures After(zone, s, ts) == After(zone, s, us)
    ensures ts != [] ==> var p := After(zone, s, us).current;
                         var sent := Injected(After(zone, s, ts).current, ts[|ts| - 1]);
                         && -0.000005 <= sent.lat - p.lat <= 0.000005
                         && -0.000005 <= sent.lon - p.lon <= 0.000005
    decreases |ts|
  {
    if ts != [] {
      JitterNeverAccumulates(zone, s, ts[..|ts| - 1], us[..|us| - 1]);
    }
  }
}
