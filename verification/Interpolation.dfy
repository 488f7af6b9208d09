/** Turning a route into one point per second of travel. Coordinates are real
    numbers and the distance is any non-negative function of two points. */
module Interpolation {

  datatype LatLon = LatLon(lat: real, lon: real)

  type Metric = (LatLon, LatLon) -> real

  ghost predicate NonNegative(d: Metric) {
    forall p, q :: d(p, q) >= 0.0
  }

  /** Metres per second for a speed in km/h, fifteen when it is not positive. */
  function Stride(speedKmh: real): (v: real)
    ensures v > 0.0
  {
    (if speedKmh <= 0.0 then 15.0 else speedKmh) / 3.6
  }

  function Along(p: LatLon, q: LatLon, fraction: real): LatLon {
    LatLon(p.lat + (q.lat - p.lat) * fraction, p.lon + (q.lon - p.lon) * fraction)
  }

  // ---------------------------------------------------------------------------
  // Specification
  // ---------------------------------------------------------------------------

  /** How many strides fit in a length. */
  function Strides(length: real, v: real): real
    requires v > 0.0
  {
    length / v
  }

  /** The fraction of a segment that `s` of its `strides` cover. */
  function Part(s: int, strides: real): real
    requires strides > 0.0
  {
    s as real / strides
  }

  /** How many points a segment appends: the inserted ones and its end. */
  function Steps(length: real, v: real): (n: int)
    requires v > 0.0
    ensures n >= 1
  {
    if length <= v then 1
    else
      LongerThanOne(length, v);
      Strides(length, v).Floor + 1
  }

  lemma LongerThanOne(length: real, v: real)
    requires v > 0.0 && length > v
    ensures Strides(length, v) > 1.0
  {
  }

  /** Point `s` of a segment, counted from its start: `s` strides along it, and its
      end when that is the last one. */
  function PointOn(p: LatLon, q: LatLon, length: real, v: real, s: int): LatLon
    requires v > 0.0 && 1 <= s <= Steps(length, v)
  {
    if s == Steps(length, v) then q
    else
      LongerThanOne(length, v);
      Along(p, q, Part(s, Strides(length, v)))
  }

  /** What a segment appends. */
  function Segment(p: LatLon, q: LatLon, length: real, v: real): (points: seq<LatLon>)
    requires v > 0.0
    ensures |points| == Steps(length, v)
  {
    seq(Steps(length, v), k requires 0 <= k < Steps(length, v) => PointOn(p, q, length, v, k + 1))
  }

  /** The result for the first `n` raw points. */
  function Route(raw: seq<LatLon>, n: nat, d: Metric, v: real): seq<LatLon>
    requires v > 0.0 && 0 < n <= |raw|
  {
    if n == 1 then [raw[0]]
    else Route(raw, n - 1, d, v) + Segment(raw[n - 2], raw[n - 1], d(raw[n - 2], raw[n - 1]), v)
  }

  // ---------------------------------------------------------------------------
  // The loops
  // ---------------------------------------------------------------------------

  method Interpolate(raw: seq<LatLon>, speedKmh: real, d: Metric) returns (out: seq<LatLon>)
    ensures |raw| < 2 ==> out == raw
    ensures |raw| >= 2 ==> out == Route(raw, |raw|, d, Stride(speedKmh))
    ensures Stride(speedKmh) * 3.6 == if speedKmh > 0.0 then speedKmh else 15.0
  {
    if |raw| < 2 {
      return raw;
    }
    var speed := speedKmh;
    if speed <= 0.0 {
      speed := 15.0;
    }
    var v := speed / 3.6;
    out := [raw[0]];
    assert out == Route(raw, 1, d, v) && v == Stride(speedKmh);
    hide Stride, Segment, PointOn, Along, Strides, Part, Route;
    for i := 0 to |raw| - 1
      invariant out == Route(raw, i + 1, d, v)
    {
      var p, q := raw[i], raw[i + 1];
      var dist := d(p, q);
      OneSegmentMore(raw, i, d, v);
      ghost var before, segment := out, Segment(p, q, dist, v);
      EndOfSegment(p, q, dist, v);
      if dist <= v {
        AppendedOne(before, segment, 0);
        out := out + [q];
      } else {
        LongerThanOne(dist, v);
        var strides := Strides(dist, v);
        var steps := strides.Floor;
        assert before + segment[..0] == before;
        for s := 1 to steps + 1
          invariant out == before + segment[..s - 1]
        {
          var fraction := Part(s, strides);
          out := out + [Along(p, q, fraction)];
          InnerOfSegment(p, q, dist, v, s);
          AppendedOne(before, segment, s - 1);
        }
        AppendedOne(before, segment, steps);
        out := out + [q];
      }
      assert segment[..|segment|] == segment;
    }
  }

  lemma AppendedOne(before: seq<LatLon>, segment: seq<LatLon>, k: nat)
    requires k < |segment|
    ensures before + segment[..k] + [segment[k]] == before + segment[..k + 1]
    ensures k == 0 ==> before + [segment[0]] == before + segment[..1]
  {
  }

  lemma OneSegmentMore(raw: seq<LatLon>, i: nat, d: Metric, v: real)
    requires v > 0.0 && i + 1 < |raw|
    ensures Route(raw, i + 2, d, v) == Route(raw, i + 1, d, v) + Segment(raw[i], raw[i + 1], d(raw[i], raw[i + 1]), v)
  {
  }

  lemma EndOfSegment(p: LatLon, q: LatLon, length: real, v: real)
    requires v > 0.0
    ensures Segment(p, q, length, v)[Steps(length, v) - 1] == q
  {
  }

  lemma InnerOfSegment(p: LatLon, q: LatLon, length: real, v: real, s: int)
    requires v > 0.0 && 1 <= s < Steps(length, v)
    ensures Strides(length, v) > 1.0
    ensures Segment(p, q, length, v)[s - 1] == Along(p, q, Part(s, Strides(length, v)))
  {
  }

  // ---------------------------------------------------------------------------
  // What it means
  // ---------------------------------------------------------------------------

  /** `x` lies on the segment from `p` to `q` of this length, `offset` of it from `p`. */
  predicate LiesAt(x: LatLon, p: LatLon, q: LatLon, length: real, offset: real) {
    && (x.lat - p.lat) * length == (q.lat - p.lat) * offset
    && (x.lon - p.lon) * length == (q.lon - p.lon) * offset
  }

  /** How far `m` seconds of travel go. */
  function Travelled(m: int, v: real): real {
    m as real * v
  }

  /** How far from the start of its segment point `s` lies; zero is the start. */
  function Offset(length: real, v: real, s: int): real
    requires v > 0.0 && 0 <= s <= Steps(length, v)
  {
    if s == Steps(length, v) then length else Travelled(s, v)
  }

  lemma NoOffset(length: real, v: real)
    requires v > 0.0 && length > v
    ensures Offset(length, v, 0) == 0.0
  {
    TravelsOn(1, v);
    hide Travelled;
  }

  lemma StrideIsLength(length: real, v: real)
    requires v > 0.0
    ensures Strides(length, v) * v == length
  {
  }

  lemma PartOfLength(s: int, r: real)
    requires r > 0.0
    ensures Part(s, r) * r == s as real
  {
  }

  lemma Regroup(x: real, y: real, z: real)
    ensures x * (y * z) == (x * y) * z
  {
  }

  lemma TimesKeepsOrder(x: real, y: real, v: real)
    requires x <= y && v > 0.0
    ensures x * v <= y * v
    ensures x < y ==> x * v < y * v
  {
  }

  lemma TravelsOn(s: int, v: real)
    ensures Travelled(0, v) == 0.0 && Travelled(s, v) == Travelled(s - 1, v) + v
  {
  }

  lemma TravelsFurther(s: int, t: int, v: real)
    requires s <= t && v > 0.0
    ensures Travelled(s, v) <= Travelled(t, v)
  {
    TimesKeepsOrder(s as real, t as real, v);
  }

  /** `s` strides of a long segment are its part of the length. */
  lemma PartIsOffset(length: real, v: real, s: int)
    requires v > 0.0 && length > v
    ensures Strides(length, v) > 1.0 && Part(s, Strides(length, v)) * length == Travelled(s, v)
  {
    LongerThanOne(length, v);
    StrideIsLength(length, v);
    PartOfLength(s, Strides(length, v));
    Regroup(Part(s, Strides(length, v)), Strides(length, v), v);
  }

  lemma AlongLiesAt(p: LatLon, q: LatLon, f: real, length: real, offset: real)
    requires f * length == offset
    ensures LiesAt(Along(p, q, f), p, q, length, offset)
  {
    Regroup(q.lat - p.lat, f, length);
    Regroup(q.lon - p.lon, f, length);
  }

  lemma EndLiesAt(p: LatLon, q: LatLon, length: real)
    ensures LiesAt(q, p, q, length, length) && LiesAt(p, p, q, length, 0.0)
  {
  }

  lemma StepsFloor(length: real, v: real)
    requires v > 0.0 && length > v
    ensures Steps(length, v) > 1
    ensures (Steps(length, v) - 1) as real <= Strides(length, v) < Steps(length, v) as real
  {
    LongerThanOne(length, v);
    hide Strides;
  }

  /** The strides that fit in a long segment, and one more does not. */
  lemma StepsFit(length: real, v: real)
    requires v > 0.0 && length > v
    ensures Travelled(Steps(length, v) - 1, v) <= length < Travelled(Steps(length, v), v)
    ensures Steps(length, v) > 1
  {
    StepsFloor(length, v);
    StrideIsLength(length, v);
    hide Strides, Steps;
    Between((Steps(length, v) - 1) as real, Strides(length, v), Steps(length, v) as real, v, length);
  }

  lemma Between(lo: real, r: real, hi: real, v: real, length: real)
    requires lo <= r < hi && v > 0.0 && r * v == length
    ensures lo * v <= length < hi * v
  {
    TimesKeepsOrder(lo, r, v);
    TimesKeepsOrder(r, hi, v);
  }

  /** The offsets ascend from zero to the length, one stride at a time except for the last. */
  lemma OffsetsAscend(length: real, v: real, s: int)
    requires v > 0.0 && length > v && 1 <= s <= Steps(length, v)
    ensures 0.0 <= Offset(length, v, s - 1) <= Offset(length, v, s) <= length
    ensures Offset(length, v, s) - Offset(length, v, s - 1) <= v
    ensures s < Steps(length, v) ==> Offset(length, v, s) - Offset(length, v, s - 1) == v
  {
    StepsFit(length, v);
    var n := Steps(length, v);
    hide Steps, Travelled;
    TravelsOn(s, v);
    TravelsFurther(0, s - 1, v);
    if s < n {
      TravelsFurther(s, n - 1, v);
    } else {
      TravelsOn(n, v);
    }
  }

  lemma PointLiesAtOffset(p: LatLon, q: LatLon, length: real, v: real, s: int)
    requires v > 0.0 && length > v && 1 <= s <= Steps(length, v)
    ensures LiesAt(PointOn(p, q, length, v, s), p, q, length, Offset(length, v, s))
  {
    PartIsOffset(length, v, s);
    AlongLiesAt(p, q, Part(s, Strides(length, v)), length, Travelled(s, v));
    EndLiesAt(p, q, length);
    hide Strides, Part, Steps, Along, LiesAt, Travelled;
  }

  /** Point `s` of a segment lies on it, exactly `s` strides from its start, and the last
      one is its end; the points follow each other, one stride apart except for the last,
      which is nearer. A segment of at most one stride has no other point than its end. */
  lemma HopsAreShort(p: LatLon, q: LatLon, length: real, v: real, s: int)
    requires v > 0.0 && 1 <= s <= Steps(length, v)
    ensures s == Steps(length, v) ==> PointOn(p, q, length, v, s) == q
    ensures s < Steps(length, v) ==>
              var x := PointOn(p, q, length, v, s);
              && (x.lat - p.lat) * length == (q.lat - p.lat) * (s as real * v)
              && (x.lon - p.lon) * length == (q.lon - p.lon) * (s as real * v)
              && length > v && s as real * v <= length
    ensures length <= v ==> Steps(length, v) == 1
    ensures length > v ==>
              && 0.0 <= Offset(length, v, s - 1) <= Offset(length, v, s) <= length
              && Offset(length, v, s) - Offset(length, v, s - 1) <= v
              && (s < Steps(length, v) ==> Offset(length, v, s) - Offset(length, v, s - 1) == v)
  {
    if length > v {
      OffsetsAscend(length, v, s);
      PointLiesAtOffset(p, q, length, v, s);
      hide Strides, Part, Steps, Along;
    }
  }

  /** The total length of the route through the first `n` raw points. */
  function Length(raw: seq<LatLon>, d: Metric, n: nat): real
    requires 0 < n <= |raw|
  {
    if n == 1 then 0.0 else Length(raw, d, n - 1) + d(raw[n - 2], raw[n - 1])
  }

  lemma StepsAreStrides(length: real, v: real)
    requires v > 0.0 && length >= 0.0
    ensures Strides(length, v) <= Steps(length, v) as real <= Strides(length, v) + 1.0
  {
    if length <= v {
      AtMostOne(length, v);
    } else {
      LongerThanOne(length, v);
    }
  }

  lemma AtMostOne(length: real, v: real)
    requires v > 0.0 && 0.0 <= length <= v
    ensures 0.0 <= Strides(length, v) <= 1.0
    ensures length == 0.0 ==> Strides(length, v) == 0.0
  {
  }

  lemma StridesAdd(a: real, b: real, v: real)
    requires v > 0.0
    ensures Strides(a + b, v) == Strides(a, v) + Strides(b, v)
  {
  }

  /** N points for n raw ones: length / v <= N - 1 <= length / v + (n - 1). */
  lemma {:induction false} CountBound(raw: seq<LatLon>, n: nat, d: Metric, v: real)
    requires v > 0.0 && NonNegative(d) && 0 < n <= |raw|
    ensures Length(raw, d, n) / v <= (|Route(raw, n, d, v)| - 1) as real <= Length(raw, d, n) / v + (n - 1) as real
    decreases n
  {
    assert Strides(Length(raw, d, n), v) == Length(raw, d, n) / v;
    if n == 1 {
      AtMostOne(0.0, v);
    } else {
      assert Strides(Length(raw, d, n - 1), v) == Length(raw, d, n - 1) / v;
      hide Strides, Steps;
      CountBound(raw, n - 1, d, v);
      StepsAreStrides(d(raw[n - 2], raw[n - 1]), v);
      StridesAdd(Length(raw, d, n - 1), d(raw[n - 2], raw[n - 1]), v);
    }
  }

  /** Where raw point `i` ends up. */
  function IndexOf(raw: seq<LatLon>, i: nat, d: Metric, v: real): int
    requires v > 0.0 && i < |raw|
  {
    |Route(raw, i + 1, d, v)| - 1
  }

  /** Later segments are appended: they change nothing before them. */
  lemma {:induction false} RouteGrows(raw: seq<LatLon>, i: nat, n: nat, d: Metric, v: real)
    requires v > 0.0 && 0 < i <= n <= |raw|
    ensures Route(raw, i, d, v) <= Route(raw, n, d, v)
    ensures i < n ==> |Route(raw, i, d, v)| < |Route(raw, n, d, v)|
    decreases n
  {
    if i < n {
      RouteGrows(raw, i, n - 1, d, v);
    }
  }

  lemma RawPointIsKept(raw: seq<LatLon>, i: nat, d: Metric, v: real)
    requires v > 0.0 && i < |raw|
    ensures var out := Route(raw, |raw|, d, v);
            0 <= IndexOf(raw, i, d, v) < |out| && out[IndexOf(raw, i, d, v)] == raw[i]
  {
    RouteEndsAtRaw(raw, i + 1, d, v);
    RouteGrows(raw, i + 1, |raw|, d, v);
  }

  /** The raw points are all kept, in order, the first and the last at the ends. */
  lemma RawPointsAreKept(raw: seq<LatLon>, d: Metric, v: real)
    requires v > 0.0 && raw != []
    ensures var out := Route(raw, |raw|, d, v);
            && IndexOf(raw, 0, d, v) == 0 && IndexOf(raw, |raw| - 1, d, v) == |out| - 1
            && (forall i :: 0 <= i < |raw| ==>
                  0 <= IndexOf(raw, i, d, v) < |out| && out[IndexOf(raw, i, d, v)] == raw[i])
            && (forall i, j :: 0 <= i < j < |raw| ==> IndexOf(raw, i, d, v) < IndexOf(raw, j, d, v))
  {
    hide Route, IndexOf;
    IndexEnds(raw, d, v);
    forall i, j | 0 <= i < j < |raw| ensures IndexOf(raw, i, d, v) < IndexOf(raw, j, d, v) {
      IndexAscends(raw, i, j, d, v);
    }
    forall i | 0 <= i < |raw|
      ensures 0 <= IndexOf(raw, i, d, v) < |Route(raw, |raw|, d, v)|
      ensures Route(raw, |raw|, d, v)[IndexOf(raw, i, d, v)] == raw[i]
    {
      RawPointIsKept(raw, i, d, v);
    }
  }

  lemma IndexEnds(raw: seq<LatLon>, d: Metric, v: real)
    requires v > 0.0 && raw != []
    ensures IndexOf(raw, 0, d, v) == 0 && IndexOf(raw, |raw| - 1, d, v) == |Route(raw, |raw|, d, v)| - 1
  {
  }

  lemma IndexAscends(raw: seq<LatLon>, i: nat, j: nat, d: Metric, v: real)
    requires v > 0.0 && i < j < |raw|
    ensures IndexOf(raw, i, d, v) < IndexOf(raw, j, d, v)
  {
    RouteGrows(raw, i + 1, j + 1, d, v);
  }

  lemma RouteEndsAtRaw(raw: seq<LatLon>, n: nat, d: Metric, v: real)
    requires v > 0.0 && 0 < n <= |raw|
    ensures |Route(raw, n, d, v)| > 0 && Route(raw, n, d, v)[|Route(raw, n, d, v)| - 1] == raw[n - 1]
  {
  }

  /** `here` and the point after it, `next`, are the two ends of a segment of at most one
      stride; or they lie on a longer one, in order and at most a stride apart. */
  ghost predicate ShortHop(here: LatLon, next: LatLon, p: LatLon, q: LatLon, length: real, v: real) {
    if length <= v then here == p && next == q
    else exists a, b :: IsHop(here, next, p, q, length, v, a, b)
  }

  ghost predicate IsHop(here: LatLon, next: LatLon, p: LatLon, q: LatLon, length: real, v: real, a: real, b: real) {
    0.0 <= a <= b <= length && b - a <= v && LiesAt(here, p, q, length, a) && LiesAt(next, p, q, length, b)
  }

  /** Read without naming where on the segment: the hop covers `gap` of the length, in
      both coordinates. */
  lemma ShortHopIsShort(here: LatLon, next: LatLon, p: LatLon, q: LatLon, length: real, v: real) returns (gap: real)
    requires ShortHop(here, next, p, q, length, v) && length >= 0.0
    ensures 0.0 <= gap <= v
    ensures (next.lat - here.lat) * length == (q.lat - p.lat) * gap
    ensures (next.lon - here.lon) * length == (q.lon - p.lon) * gap
  {
    hide LiesAt;
    if length <= v {
      gap := length;
    } else {
      var a, b :| IsHop(here, next, p, q, length, v, a, b);
      gap := b - a;
      Apart(here, next, p, q, length, a, b);
    }
  }

  lemma Apart(x: LatLon, y: LatLon, p: LatLon, q: LatLon, length: real, a: real, b: real)
    requires LiesAt(x, p, q, length, a) && LiesAt(y, p, q, length, b)
    ensures (y.lat - x.lat) * length == (q.lat - p.lat) * (b - a)
    ensures (y.lon - x.lon) * length == (q.lon - p.lon) * (b - a)
  {
    Distribute(x.lat, y.lat, p.lat, q.lat, length, a, b);
    Distribute(x.lon, y.lon, p.lon, q.lon, length, a, b);
  }

  lemma Distribute(x: real, y: real, p: real, q: real, length: real, a: real, b: real)
    requires (x - p) * length == (q - p) * a && (y - p) * length == (q - p) * b
    ensures (y - x) * length == (q - p) * (b - a)
  {
    assert (y - x) * length == (y - p) * length - (x - p) * length;
  }

  lemma SegmentHops(p: LatLon, q: LatLon, length: real, v: real, s: int)
    requires v > 0.0 && 1 <= s <= Steps(length, v)
    ensures var points := Segment(p, q, length, v);
            ShortHop(if s == 1 then p else points[s - 2], points[s - 1], p, q, length, v)
  {
    hide LiesAt, Along, Strides, Part;
    var points := Segment(p, q, length, v);
    if length > v {
      OffsetsAscend(length, v, s);
      EndLiesAt(p, q, length);
      PointLiesAtOffset(p, q, length, v, s);
      if s > 1 {
        PointLiesAtOffset(p, q, length, v, s - 1);
      } else {
        NoOffset(length, v);
      }
      hide Steps, PointOn, Offset;
      assert IsHop(if s == 1 then p else points[s - 2], points[s - 1], p, q, length, v,
                   Offset(length, v, s - 1), Offset(length, v, s));
    }
  }

  /** The points of a long segment before point `s`, from its start on. */
  lemma SegmentStarts(p: LatLon, q: LatLon, length: real, v: real, s: int)
    requires v > 0.0 && 1 <= s <= Steps(length, v)
    ensures var points := Segment(p, q, length, v);
            length > v ==> LiesAt(if s == 1 then p else points[s - 2], p, q, length, Travelled(s - 1, v))
  {
    if length > v {
      hide LiesAt, Along, Strides, Part, Travelled;
      EndLiesAt(p, q, length);
      TravelsOn(1, v);
      if s > 1 {
        PointLiesAtOffset(p, q, length, v, s - 1);
      }
    }
  }

  /** Points `k` and `k + 1` of the result, when they lie on the last segment. */
  lemma LastSegment(raw: seq<LatLon>, n: nat, d: Metric, v: real, k: nat)
    requires v > 0.0 && 1 < n <= |raw|
    requires |Route(raw, n - 1, d, v)| <= k + 1 < |Route(raw, n, d, v)|
    ensures var s := k + 2 - |Route(raw, n - 1, d, v)|;
            var points := Segment(raw[n - 2], raw[n - 1], d(raw[n - 2], raw[n - 1]), v);
            && 1 <= s <= |points| && s - 1 == k - IndexOf(raw, n - 2, d, v)
            && IndexOf(raw, n - 2, d, v) <= k < IndexOf(raw, n - 1, d, v)
            && Route(raw, n, d, v)[k + 1] == points[s - 1]
            && Route(raw, n, d, v)[k] == if s == 1 then raw[n - 2] else points[s - 2]
  {
    hide Segment, Steps;
    RouteEndsAtRaw(raw, n - 1, d, v);
  }

  lemma EarlierSegment(raw: seq<LatLon>, n: nat, d: Metric, v: real, k: nat)
    requires v > 0.0 && 0 < n <= |raw| && k + 1 < |Route(raw, n, d, v)|
    ensures n > 1
    ensures k + 1 < |Route(raw, n - 1, d, v)| ==>
              && Route(raw, n, d, v)[k] == Route(raw, n - 1, d, v)[k]
              && Route(raw, n, d, v)[k + 1] == Route(raw, n - 1, d, v)[k + 1]
  {
    hide Segment, Steps;
  }

  /** Any two neighbours of the result lie on one segment of the route, at most a stride
      of its length apart, and the first of them as many strides from the start of a
      long segment as there are seconds since then. */
  lemma {:induction false} EveryHopIsShort(raw: seq<LatLon>, n: nat, d: Metric, v: real, k: nat) returns (i: nat)
    requires v > 0.0 && NonNegative(d) && 0 < n <= |raw|
    requires k + 1 < |Route(raw, n, d, v)|
    ensures i + 1 < n
    ensures IndexOf(raw, i, d, v) <= k < IndexOf(raw, i + 1, d, v)
    ensures ShortHop(Route(raw, n, d, v)[k], Route(raw, n, d, v)[k + 1], raw[i], raw[i + 1], d(raw[i], raw[i + 1]), v)
    ensures d(raw[i], raw[i + 1]) > v ==>
              LiesAt(Route(raw, n, d, v)[k], raw[i], raw[i + 1], d(raw[i], raw[i + 1]),
                     Travelled(k - IndexOf(raw, i, d, v), v))
    decreases n
  {
    hide ShortHop, Segment, Steps, LiesAt, Travelled, Route, IndexOf;
    EarlierSegment(raw, n, d, v, k);
    if k + 1 < |Route(raw, n - 1, d, v)| {
      i := EveryHopIsShort(raw, n - 1, d, v, k);
    } else {
      i := n - 2;
      LastSegment(raw, n, d, v, k);
      var s := k + 2 - |Route(raw, n - 1, d, v)|;
      SegmentHops(raw[i], raw[i + 1], d(raw[i], raw[i + 1]), v, s);
      SegmentStarts(raw[i], raw[i + 1], d(raw[i], raw[i + 1]), v, s);
    }
  }
}
