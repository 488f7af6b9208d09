/** The decoder inverts the encoder, accepts exactly the well-formed strings, and
    decodes a concatenation piece by piece. */
module PolylineProofs {
  import opened Int64
  import opened Polyline
  import opened Wrappers

  // ---------------------------------------------------------------------------
  // Round trip
  // ---------------------------------------------------------------------------

  lemma {:induction false} GroupsRoundTrip(n: nat, rest: seq<Byte>)
    ensures FirstGroups(EncodeGroups(n) + rest) == Some((n, |EncodeGroups(n)|))
    decreases n
  {
    var bytes := EncodeGroups(n) + rest;
    if n < 32 {
      assert bytes[0] == n + 63 && Bits(bytes[0]) == n;
    } else {
      assert bytes[0] == n % 32 + 95 && bytes[1..] == EncodeGroups(n / 32) + rest;
      GroupsRoundTrip(n / 32, rest);
    }
  }

  const TwoTo62 := 0x4000_0000_0000_0000

  /** A difference that survives zigzag in 64 bits: its wrapped value is in [-2^62, 2^62). */
  predicate IsSmall(d: int) {
    -TwoTo62 <= Wrap(d) < TwoTo62
  }

  /** In 64 bits zigzag is undone up to a multiple of 2^63: the result is always
      small, and congruent to the value itself exactly when that is small. */
  lemma ZigZagRoundTrip(d: int)
    ensures -TwoTo62 <= UnZigZag(Wrap(ZigZag(d))) < TwoTo62
    ensures (UnZigZag(Wrap(ZigZag(d))) - d) % TwoTo63 == 0
    ensures UnZigZag(Wrap(ZigZag(d))) == Wrap(d) <==> IsSmall(d)
    ensures (UnZigZag(Wrap(ZigZag(d))) - d) % TwoTo64 == 0 <==> IsSmall(d)
    ensures -TwoTo63 <= d < TwoTo63 && IsSmall(d) ==> UnZigZag(Wrap(ZigZag(d))) == d
  {
    var k := (d + TwoTo63) / TwoTo64;
    WrapSubtracts(d, k);
    var m := (ZigZag(d) + TwoTo63) / TwoTo64;
    WrapSubtracts(ZigZag(d), m);
    var back := UnZigZag(Wrap(ZigZag(d)));
    Unfolded(d, m);
    WrapFits(back);
    WrapIsModular(back, d);
    WrapFits(d);
    Multiple(back - d, if d < 0 then m else -m);
    hide Wrap, UnZigZag, ZigZag;
    if IsSmall(d) {
      assert m == if d < 0 then -2 * k else 2 * k;
    }
  }

  lemma Multiple(x: int, c: int)
    requires x == c * TwoTo63
    ensures x % TwoTo63 == 0
  {
  }

  /** Half of the wrapped zigzag, with the sign of what it was. */
  lemma Unfolded(d: int, m: int)
    requires Wrap(ZigZag(d)) == ZigZag(d) - m * TwoTo64 && FitsInt(Wrap(ZigZag(d)))
    ensures UnZigZag(Wrap(ZigZag(d))) == if d < 0 then d + m * TwoTo63 else d - m * TwoTo63
    ensures -TwoTo62 <= UnZigZag(Wrap(ZigZag(d))) < TwoTo62
  {
    hide Wrap;
  }

  lemma WrapSubtracts(x: int, k: int)
    requires k == (x + TwoTo63) / TwoTo64
    ensures Wrap(x) == x - k * TwoTo64
    ensures -TwoTo63 <= Wrap(x) < TwoTo63
  {
  }

  /** A coordinate comes back from its difference exactly when that is small. */
  lemma CoordinateRoundTrip(prior: int, x: int)
    requires FitsInt(prior) && FitsInt(x)
    ensures Wrap(prior + UnZigZag(Wrap(ZigZag(x - prior)))) == x <==> IsSmall(x - prior)
  {
    var d := x - prior;
    ZigZagRoundTrip(d);
    WrapFits(x);
    WrapIsModular(prior + UnZigZag(Wrap(ZigZag(d))), x);
  }

  predicate PointFits(p: Point) {
    FitsInt(p.lat) && FitsInt(p.lon)
  }

  predicate StepIsSmall(prior: Point, p: Point) {
    IsSmall(p.lat - prior.lat) && IsSmall(p.lon - prior.lon)
  }

  /** Every step from one point to the next, starting at `prior`, wraps to a small one. */
  predicate StepsAreSmall(points: seq<Point>, prior: Point)
    decreases |points|
  {
    points == [] || (StepIsSmall(prior, points[0]) && StepsAreSmall(points[1..], points[0]))
  }

  /** The differences of a point as they come out of the decoder. */
  function Returned(prior: Point, p: Point): (int, int) {
    (UnZigZag(Wrap(ZigZag(p.lat - prior.lat))), UnZigZag(Wrap(ZigZag(p.lon - prior.lon))))
  }

  lemma DecodeOnePoint(p: Point, prior: Point, rest: seq<Byte>)
    ensures var a, b := EncodeGroups(ZigZag(p.lat - prior.lat)), EncodeGroups(ZigZag(p.lon - prior.lon));
            FirstPair(a + b + rest) == Some((Returned(prior, p).0, Returned(prior, p).1, |a + b|))
  {
    hide Wrap, UnZigZag, ZigZag, EncodeGroups, FirstGroups;
    var a, b := EncodeGroups(ZigZag(p.lat - prior.lat)), EncodeGroups(ZigZag(p.lon - prior.lon));
    assert a + b + rest == a + (b + rest);
    GroupsRoundTrip(ZigZag(p.lat - prior.lat), b + rest);
    assert (a + b + rest)[|a|..] == b + rest;
    GroupsRoundTrip(ZigZag(p.lon - prior.lon), rest);
  }

  lemma DecodeAfterOnePoint(p: Point, prior: Point, points: seq<Point>, from: Point)
    requires points != [] && p == points[0]
    ensures var q := Move(from, Returned(prior, p).0, Returned(prior, p).1);
            DecodeFrom(Encode(points, prior), from) == Joined([q], DecodeFrom(Encode(points[1..], p), q))
  {
    hide ZigZag, EncodeGroups, Joined, FirstPair, Move, Returned;
    var a, b := EncodeGroups(ZigZag(p.lat - prior.lat)), EncodeGroups(ZigZag(p.lon - prior.lon));
    var rest := Encode(points[1..], p);
    DecodeOnePoint(p, prior, rest);
    assert Encode(points, prior) == a + b + rest && (a + b + rest)[|a + b|..] == rest;
  }

  lemma RoundTripOfFirst(points: seq<Point>, prior: Point)
    requires points != [] && PointFits(prior) && PointFits(points[0])
    ensures DecodeFrom(Encode(points, prior), prior) == Some(points) <==>
            StepIsSmall(prior, points[0]) && DecodeFrom(Encode(points[1..], points[0]), points[0]) == Some(points[1..])
  {
    hide Wrap, UnZigZag, ZigZag, EncodeGroups, IsSmall, FitsInt, DecodeFrom, Joined;
    var p := points[0];
    CoordinateRoundTrip(prior.lat, p.lat);
    CoordinateRoundTrip(prior.lon, p.lon);
    DecodeAfterOnePoint(p, prior, points, prior);
    var q := Move(prior, Returned(prior, p).0, Returned(prior, p).1);
    JoinedHead(q, DecodeFrom(Encode(points[1..], p), q), points);
  }

  /** Decoding the encoding of 64-bit points gives them back if and only if every
      step is small. */
  lemma {:induction false} RoundTripFrom(points: seq<Point>, prior: Point)
    requires PointFits(prior) && forall i :: 0 <= i < |points| ==> PointFits(points[i])
    ensures DecodeFrom(Encode(points, prior), prior) == Some(points) <==> StepsAreSmall(points, prior)
    decreases |points|
  {
    if points == [] {
      NothingDecodes(prior);
    } else {
      hide DecodeFrom, Encode, PointFits, StepIsSmall;
      RoundTripOfFirst(points, prior);
      assert forall i :: 0 <= i < |points[1..]| ==> points[1..][i] == points[i + 1];
      RoundTripFrom(points[1..], points[0]);
    }
  }

  lemma JoinedHead(q: Point, rest: Option<seq<Point>>, points: seq<Point>)
    requires points != []
    ensures Joined([q], rest) == Some(points) <==> q == points[0] && rest == Some(points[1..])
  {
    assert points == [points[0]] + points[1..];
    if rest.Some? {
      assert ([q] + rest.value)[1..] == rest.value;
    }
  }

  /** The round trip: for every non-empty list of 64-bit coordinate pairs, decoding
      its standard encoding returns exactly that list if and only if every step, from
      each point to the next and from the origin to the first, wrapped to 64 bits,
      lies in [-2^62, 2^62). */
  lemma RoundTrip(points: seq<Point>)
    requires points != [] && forall i :: 0 <= i < |points| ==> PointFits(points[i])
    ensures var answer := Decode(Encode(points, Origin));
            answer.Some? && Reads(answer.value, points) <==> StepsAreSmall(points, Origin)
  {
    RoundTripFrom(points, Origin);
    DecodedReads(Encode(points, Origin));
    var found := DecodeFrom(Encode(points, Origin), Origin);
    hide DecodeFrom, Encode, PointFits, StepsAreSmall, ScaleAll, Reads;
    if found.Some? {
      ReadsItsOwn(found.value);
      ReadsOnlyOne(ScaleAll(found.value), found.value, points);
    }
  }

  /** What the decoder answers holds the points it decoded. */
  lemma DecodedReads(bytes: seq<Byte>)
    ensures Decode(bytes).Some? <==> DecodeFrom(bytes, Origin).Some? && DecodeFrom(bytes, Origin).value != []
    ensures Decode(bytes).Some? ==> Reads(Decode(bytes).value, DecodeFrom(bytes, Origin).value)
    ensures Decode(bytes).Some? ==> Decode(bytes).value == ScaleAll(DecodeFrom(bytes, Origin).value)
  {
    hide DecodeFrom, ScaleAll, Reads;
    if DecodeFrom(bytes, Origin).Some? {
      ReadsItsOwn(DecodeFrom(bytes, Origin).value);
    }
  }

  /** The first step beyond: a latitude of 2^62 comes back as its negative. */
  lemma FarStepIsLost()
    ensures var far := [Point(TwoTo62, 0)];
            var answer := Decode(Encode(far, Origin));
            && PointFits(far[0]) && answer.Some?
            && Reads(answer.value, [Point(-TwoTo62, 0)]) && !Reads(answer.value, far)
  {
    hide EncodeGroups, DecodeFrom;
    var far, back := Point(TwoTo62, 0), Point(-TwoTo62, 0);
    assert [far][1..] == [] && Encode([], far) == [];
    FarValueReturnsNegative();
    DecodeAfterOnePoint(far, Origin, [far], Origin);
    NothingDecodes(back);
    assert [back] + [] == [back];
    DecodedReads(Encode([far], Origin));
    hide Reads, Encode, ScaleAll;
    assert [back][0] != [far][0];
    ReadsOnlyOne(Decode(Encode([far], Origin)).value, [back], [far]);
  }

  lemma FarValueReturnsNegative()
    ensures Wrap(UnZigZag(Wrap(ZigZag(TwoTo62)))) == -TwoTo62 && Wrap(UnZigZag(Wrap(ZigZag(0)))) == 0
    ensures PointFits(Point(TwoTo62, 0))
  {
  }

  lemma NothingDecodes(prior: Point)
    ensures DecodeFrom([], prior) == Some([])
  {
  }

  /** A latitude and longitude in units of 0.00001 degree. */
  predicate OnEarth(p: Point) {
    -9_000_000 <= p.lat <= 9_000_000 && -18_000_000 <= p.lon <= 18_000_000
  }

  lemma {:induction false} EarthStepsAreSmall(points: seq<Point>, prior: Point)
    requires OnEarth(prior) && forall i :: 0 <= i < |points| ==> OnEarth(points[i])
    ensures StepsAreSmall(points, prior)
    decreases |points|
  {
    if points != [] {
      EarthStepsAreSmall(points[1..], points[0]);
    }
  }

  /** So every real route comes back, each point with its own latitude and longitude. */
  lemma EarthRoundTrip(points: seq<Point>)
    requires points != [] && forall i :: 0 <= i < |points| ==> OnEarth(points[i])
    ensures var answer := Decode(Encode(points, Origin));
            && answer.Some? && |answer.value| == |points|
            && forall i :: 0 <= i < |points| ==>
                 && answer.value[i].lat * 100000.0 == points[i].lat as real
                 && answer.value[i].lon * 100000.0 == points[i].lon as real
  {
    EarthStepsAreSmall(points, Origin);
    RoundTrip(points);
    hide Decode, Encode;
  }

  // ---------------------------------------------------------------------------
  // Which strings decode
  // ---------------------------------------------------------------------------

  function Terminators(bytes: seq<Byte>): nat
    decreases |bytes|
  {
    if bytes == [] then 0 else (if Terminates(bytes[0]) then 1 else 0) + Terminators(bytes[1..])
  }

  predicate EndsClosed(bytes: seq<Byte>) {
    bytes == [] || Terminates(bytes[|bytes| - 1])
  }

  /** A value can be read when a terminator is left, and reading it uses up one. */
  lemma {:induction false} ReadingUsesOneTerminator(bytes: seq<Byte>)
    ensures FirstValue(bytes).Some? <==> Terminators(bytes) > 0
    ensures FirstValue(bytes).Some? ==>
              && 0 < FirstValue(bytes).value.1 <= |bytes|
              && Terminators(bytes[FirstValue(bytes).value.1..]) == Terminators(bytes) - 1
              && (EndsClosed(bytes) <==> EndsClosed(bytes[FirstValue(bytes).value.1..]))
    decreases |bytes|
  {
    hide Wrap, UnZigZag, Bits;
    if bytes != [] {
      ReadingUsesOneTerminator(bytes[1..]);
      if Terminates(bytes[0]) {
        assert bytes[1..] == bytes[FirstValue(bytes).value.1..];
      } else if FirstValue(bytes[1..]).Some? {
        var used := FirstValue(bytes[1..]).value.1;
        assert bytes[1..][used..] == bytes[used + 1..];
      }
    }
  }

  lemma {:induction false} ClosedEndTerminates(bytes: seq<Byte>)
    requires bytes != [] && EndsClosed(bytes)
    ensures Terminators(bytes) > 0
    decreases |bytes|
  {
    if |bytes| > 1 {
      assert bytes[1..][|bytes| - 2] == bytes[|bytes| - 1];
      ClosedEndTerminates(bytes[1..]);
    }
  }

  /** A point can be read when two terminators are left, and uses up both. */
  lemma ReadingAPairUsesTwo(bytes: seq<Byte>)
    ensures FirstPair(bytes).Some? <==> Terminators(bytes) >= 2
    ensures FirstPair(bytes).Some? ==>
              && Terminators(bytes[FirstPair(bytes).value.2..]) == Terminators(bytes) - 2
              && (EndsClosed(bytes) <==> EndsClosed(bytes[FirstPair(bytes).value.2..]))
  {
    hide FirstValue, Terminators, EndsClosed;
    ReadingUsesOneTerminator(bytes);
    if FirstValue(bytes).Some? {
      var i := FirstValue(bytes).value.1;
      ReadingUsesOneTerminator(bytes[i..]);
      if FirstValue(bytes[i..]).Some? {
        assert bytes[i..][FirstValue(bytes[i..]).value.1..] == bytes[i + FirstValue(bytes[i..]).value.1..];
      }
    }
  }

  lemma {:induction false} DecodesExactlyFrom(bytes: seq<Byte>, prior: Point)
    ensures DecodeFrom(bytes, prior).Some? <==> EndsClosed(bytes) && Terminators(bytes) % 2 == 0
    ensures DecodeFrom(bytes, prior).Some? ==> |DecodeFrom(bytes, prior).value| == Terminators(bytes) / 2
    decreases |bytes|
  {
    hide FirstPair, Move, Terminates;
    if bytes != [] {
      ReadingAPairUsesTwo(bytes);
      if EndsClosed(bytes) {
        ClosedEndTerminates(bytes);
      }
      if FirstPair(bytes).Some? {
        var pair := FirstPair(bytes).value;
        DecodesExactlyFrom(bytes[pair.2..], Move(prior, pair.0, pair.1));
      }
    }
  }

  /** Decoding succeeds exactly on the byte strings that are not empty, end in a
      terminator and have an even number of them, and gives half as many points. */
  lemma DecodesExactly(bytes: seq<Byte>)
    ensures Decode(bytes).Some? <==> bytes != [] && Terminates(bytes[|bytes| - 1]) && Terminators(bytes) % 2 == 0
    ensures Decode(bytes).Some? ==> |Decode(bytes).value| == Terminators(bytes) / 2
  {
    DecodesExactlyFrom(bytes, Origin);
    if bytes != [] && EndsClosed(bytes) {
      ClosedEndTerminates(bytes);
    }
  }

  // ---------------------------------------------------------------------------
  // Concatenation
  // ---------------------------------------------------------------------------

  /** The same groups, and so the same point, start a longer string. */
  lemma {:induction false} GroupsOfConcat(u: seq<Byte>, v: seq<Byte>)
    requires FirstGroups(u).Some?
    ensures FirstGroups(u + v) == FirstGroups(u)
    decreases |u|
  {
    assert (u + v)[0] == u[0] && (u + v)[1..] == u[1..] + v;
    if FirstGroups(u[1..]).Some? {
      GroupsOfConcat(u[1..], v);
    }
  }

  lemma PairOfConcat(u: seq<Byte>, v: seq<Byte>)
    requires FirstPair(u).Some?
    ensures FirstPair(u + v) == FirstPair(u)
    ensures (u + v)[FirstPair(u).value.2..] == u[FirstPair(u).value.2..] + v
  {
    hide FirstGroups, UnZigZag, Wrap;
    GroupsOfConcat(u, v);
    var i := FirstValue(u).value.1;
    assert (u + v)[i..] == u[i..] + v;
    GroupsOfConcat(u[i..], v);
  }

  function Last(points: seq<Point>, prior: Point): Point {
    if points == [] then prior else points[|points| - 1]
  }

  lemma {:induction false} ConcatFrom(u: seq<Byte>, v: seq<Byte>, prior: Point)
    requires DecodeFrom(u, prior).Some?
    ensures DecodeFrom(u + v, prior)
         == Joined(DecodeFrom(u, prior).value, DecodeFrom(v, Last(DecodeFrom(u, prior).value, prior)))
    decreases |u|
  {
    if u == [] {
      assert u + v == v;
      JoinedToNothing(DecodeFrom(v, prior));
    } else {
      hide FirstPair, Move;
      PairOfConcat(u, v);
      var pair := FirstPair(u).value;
      var p := Move(prior, pair.0, pair.1);
      var tail := u[pair.2..];
      ConcatFrom(tail, v, p);
      var later := DecodeFrom(tail, p).value;
      assert Last([p] + later, prior) == Last(later, p);
      JoinedSides([p], later, DecodeFrom(v, Last(later, p)));
    }
  }

  lemma JoinedSides(a: seq<Point>, b: seq<Point>, rest: Option<seq<Point>>)
    ensures Joined(a, Joined(b, rest)) == Joined(a + b, rest)
  {
    if rest.Some? {
      assert a + (b + rest.value) == (a + b) + rest.value;
    }
  }

  function Shift(p: Point, off: Point): Point {
    Point(Wrap(p.lat + off.lat), Wrap(p.lon + off.lon))
  }

  function ShiftAll(points: seq<Point>, off: Point): seq<Point> {
    seq(|points|, i requires 0 <= i < |points| => Shift(points[i], off))
  }

  lemma ShiftOverMove(prior: Point, off: Point, dLat: int, dLon: int)
    ensures Shift(Move(prior, dLat, dLon), off) == Move(Shift(prior, off), dLat, dLon)
  {
    SumsCommute(prior.lat, dLat, off.lat);
    SumsCommute(prior.lon, dLon, off.lon);
    hide Wrap;
  }

  lemma SumsCommute(x: int, a: int, b: int)
    ensures Wrap(Wrap(x + a) + b) == Wrap(Wrap(x + b) + a)
  {
    hide Wrap;
    WrapAgain(x + a, b);
    WrapAgain(x + b, a);
    assert x + a + b == x + b + a;
  }

  /** Starting from a shifted point shifts every point decoded. */
  lemma {:induction false} DecodeShifted(bytes: seq<Byte>, prior: Point, off: Point)
    ensures DecodeFrom(bytes, prior).Some? <==> DecodeFrom(bytes, Shift(prior, off)).Some?
    ensures DecodeFrom(bytes, prior).Some? ==>
              DecodeFrom(bytes, Shift(prior, off)).value == ShiftAll(DecodeFrom(bytes, prior).value, off)
    decreases |bytes|
  {
    hide FirstPair, Move, Shift;
    if bytes != [] && FirstPair(bytes).Some? {
      var pair := FirstPair(bytes).value;
      var p := Move(prior, pair.0, pair.1);
      ShiftOverMove(prior, off, pair.0, pair.1);
      DecodeShifted(bytes[pair.2..], p, off);
      if DecodeFrom(bytes, prior).Some? {
        var later := DecodeFrom(bytes[pair.2..], p).value;
        assert [Shift(p, off)] + ShiftAll(later, off) == ShiftAll([p] + later, off);
      }
    }
  }

  lemma OriginShiftsToFit(p: Point)
    requires PointFits(p)
    ensures Shift(Origin, p) == p
  {
  }

  /** Decoding `u + v` gives what `u` decodes to, followed by what `v` decodes to
      shifted by the last point of `u`. */
  lemma DecodeOfConcat(u: seq<Byte>, v: seq<Byte>)
    requires DecodeFrom(u, Origin).Some? && DecodeFrom(v, Origin).Some? && u != []
    ensures var a, b := DecodeFrom(u, Origin).value, DecodeFrom(v, Origin).value;
            && a != []
            && DecodeFrom(u + v, Origin) == Some(a + ShiftAll(b, a[|a| - 1]))
            && Decode(u + v).Some? && Reads(Decode(u + v).value, a + ShiftAll(b, a[|a| - 1]))
  {
    hide DecodeFrom, PointFits, Shift, ShiftAll, ScaleAll;
    DecodesExactlyFrom(u, Origin);
    ClosedEndTerminates(u);
    ConcatFrom(u, v, Origin);
    var a := DecodeFrom(u, Origin).value;
    var last := a[|a| - 1];
    DecodeStays64Bit(u, Origin);
    OriginShiftsToFit(last);
    DecodeShifted(v, Origin, last);
    DecodedReads(u + v);
  }

  lemma MoveFits(prior: Point, dLat: int, dLon: int)
    ensures PointFits(Move(prior, dLat, dLon))
  {
  }

  lemma {:induction false} DecodeStays64Bit(bytes: seq<Byte>, prior: Point)
    ensures DecodeFrom(bytes, prior).Some? ==>
              forall i :: 0 <= i < |DecodeFrom(bytes, prior).value| ==> PointFits(DecodeFrom(bytes, prior).value[i])
    decreases |bytes|
  {
    hide FirstPair, Move, PointFits;
    if bytes != [] && DecodeFrom(bytes, prior).Some? {
      var pair := FirstPair(bytes).value;
      MoveFits(prior, pair.0, pair.1);
      DecodeStays64Bit(bytes[pair.2..], Move(prior, pair.0, pair.1));
    }
  }
}
