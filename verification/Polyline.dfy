/** The encoded-polyline decoder, in Go's 64-bit integers, against the encoder of
    Google's Encoded Polyline Algorithm Format. */
module Polyline {
  import opened Int64
  import opened Wrappers

  type Byte = b: int | 0 <= b < 256

  // ---------------------------------------------------------------------------
  // The format
  // ---------------------------------------------------------------------------

  /** Steps 3 to 5 of the format: shift left, and invert what was negative. */
  function ZigZag(v: int): nat {
    if v < 0 then -2 * v - 1 else 2 * v
  }

  /** The decoder's inverse of it, with Go's arithmetic shift. */
  function UnZigZag(r: int): int {
    if r % 2 != 0 then -(r / 2) - 1 else r / 2
  }

  /** Steps 6 to 10: groups of five bits, low first, all but the last marked with
      0x20, each plus 63. */
  function EncodeGroups(n: nat): (bytes: seq<Byte>)
    ensures |bytes| > 0
    decreases n
  {
    if n < 32 then [n + 63] else [n % 32 + 32 + 63] + EncodeGroups(n / 32)
  }

  datatype Point = Point(lat: int, lon: int)

  /** Each coordinate is encoded as its difference from the previous point's. */
  function Encode(points: seq<Point>, prior: Point): seq<Byte>
    decreases |points|
  {
    if points == [] then []
    else
      EncodeGroups(ZigZag(points[0].lat - prior.lat)) + EncodeGroups(ZigZag(points[0].lon - prior.lon))
      + Encode(points[1..], points[0])
  }

  const Origin := Point(0, 0)

  // ---------------------------------------------------------------------------
  // The decoder as functions
  // ---------------------------------------------------------------------------

  /** The last byte of a value. */
  predicate Terminates(b: Byte) {
    b < 95
  }

  /** The five bits a byte carries: `(b - 63) & 0x1f`, also when `b` is below 63. */
  function Bits(b: Byte): (g: nat)
    ensures g < 32
  {
    (b - 63) % 32
  }

  /** A byte in front of the groups that follow it. */
  function WithFirst(b: Byte, tail: Option<(int, nat)>): Option<(int, nat)> {
    if Terminates(b) then Some((Bits(b), 1))
    else if tail.None? then None
    else Some((Bits(b) + 32 * tail.value.0, tail.value.1 + 1))
  }

  /** The first value of `bytes`: the sum of its groups and its length in bytes. */
  function FirstGroups(bytes: seq<Byte>): Option<(int, nat)>
    decreases |bytes|
  {
    if bytes == [] then None else WithFirst(bytes[0], FirstGroups(bytes[1..]))
  }

  lemma {:induction false} FirstGroupsFit(bytes: seq<Byte>)
    ensures FirstGroups(bytes).Some? ==> 0 < FirstGroups(bytes).value.1 <= |bytes|
    decreases |bytes|
  {
    if bytes != [] {
      FirstGroupsFit(bytes[1..]);
    }
  }

  /** A string read byte by byte: a byte carries the five low bits of itself less 63,
      worth 32 times less than those of the bytes after it, and below 95 it is the last. */
  lemma GroupsByByte(bytes: seq<Byte>, g: nat, k: int)
    requires bytes != [] && g < 32 && bytes[0] as int == 32 * k + g + 63
    ensures FirstGroups(bytes)
         == if bytes[0] < 95 then Some((g, 1))
            else if FirstGroups(bytes[1..]).None? then None
            else Some((g + 32 * FirstGroups(bytes[1..]).value.0, 1 + FirstGroups(bytes[1..]).value.1))
    ensures FirstGroups([]) == None
  {
    OneByteLess(bytes);
    NoGroups();
    hide Bits, FirstGroups, WithFirst;
    FirstByte(bytes[0], FirstGroups(bytes[1..]), g, k);
  }

  lemma FirstByte(b: Byte, tail: Option<(int, nat)>, g: nat, k: int)
    requires g < 32 && b - 63 == 32 * k + g
    ensures WithFirst(b, tail)
         == if b < 95 then Some((g, 1))
            else if tail.None? then None
            else Some((g + 32 * tail.value.0, 1 + tail.value.1))
  {
    LowFiveBits(b, g, k);
    hide Bits;
  }

  lemma OneByteLess(bytes: seq<Byte>)
    requires bytes != []
    ensures FirstGroups(bytes) == WithFirst(bytes[0], FirstGroups(bytes[1..]))
  {
  }

  lemma NoGroups()
    ensures FirstGroups([]) == None
  {
  }

  lemma LowFiveBits(b: Byte, g: nat, k: int)
    requires g < 32 && b - 63 == 32 * k + g
    ensures Bits(b) == g
  {
  }

  /** The first value and its length in bytes. */
  function FirstValue(bytes: seq<Byte>): (r: Option<(int, nat)>)
    ensures r.Some? ==> 0 < r.value.1 <= |bytes|
  {
    FirstGroupsFit(bytes);
    var groups := FirstGroups(bytes);
    if groups.None? then None else Some((UnZigZag(Wrap(groups.value.0)), groups.value.1))
  }

  /** The first two values, one point's differences, and their length in bytes. */
  function FirstPair(bytes: seq<Byte>): (r: Option<(int, int, nat)>)
    ensures r.Some? ==> 1 < r.value.2 <= |bytes|
  {
    var first := FirstValue(bytes);
    if first.None? then None
    else
      var second := FirstValue(bytes[first.value.1..]);
      if second.None? then None else Some((first.value.0, second.value.0, first.value.1 + second.value.1))
  }

  function Move(prior: Point, dLat: int, dLon: int): Point {
    Point(Wrap(prior.lat + dLat), Wrap(prior.lon + dLon))
  }

  /** Points already decoded in front of those still to come. */
  function Joined(done: seq<Point>, rest: Option<seq<Point>>): Option<seq<Point>> {
    if rest.None? then None else Some(done + rest.value)
  }

  /** All points of `bytes`, decoded from `prior`; nothing when a value is cut off. */
  function DecodeFrom(bytes: seq<Byte>, prior: Point): Option<seq<Point>>
    decreases |bytes|
  {
    if bytes == [] then Some([])
    else
      var pair := FirstPair(bytes);
      if pair.None? then None
      else
        var p := Move(prior, pair.value.0, pair.value.1);
        Joined([p], DecodeFrom(bytes[pair.value.2..], p))
  }

  datatype LatLon = LatLon(lat: real, lon: real)

  function Scale(p: Point): LatLon {
    LatLon(p.lat as real / 100000.0, p.lon as real / 100000.0)
  }

  function ScaleAll(points: seq<Point>): seq<LatLon> {
    seq(|points|, i requires 0 <= i < |points| => Scale(points[i]))
  }

  /** The answer holds these points, in units of 0.00001 degree: latitude and longitude
      of each, in order. */
  predicate Reads(answer: seq<LatLon>, points: seq<Point>) {
    && |answer| == |points|
    && forall i :: 0 <= i < |points| ==>
         answer[i].lat * 100000.0 == points[i].lat as real && answer[i].lon * 100000.0 == points[i].lon as real
  }

  lemma ScaledReads(p: Point)
    ensures Scale(p).lat * 100000.0 == p.lat as real && Scale(p).lon * 100000.0 == p.lon as real
  {
  }

  lemma ReadsItsOwn(points: seq<Point>)
    ensures Reads(ScaleAll(points), points)
  {
    forall i | 0 <= i < |points|
      ensures ScaleAll(points)[i].lat * 100000.0 == points[i].lat as real
      ensures ScaleAll(points)[i].lon * 100000.0 == points[i].lon as real
    {
      ScaledReads(points[i]);
    }
  }

  /** An answer holds one list of points only. */
  lemma ReadsOnlyOne(answer: seq<LatLon>, a: seq<Point>, b: seq<Point>)
    requires Reads(answer, a)
    ensures Reads(answer, b) <==> a == b
  {
    if Reads(answer, b) {
      forall i | 0 <= i < |a| ensures a[i] == b[i] {
        assert a[i].lat as real == b[i].lat as real && a[i].lon as real == b[i].lon as real;
      }
    }
  }

  /** What the decoder returns; an empty polyline is an error. */
  function Decode(bytes: seq<Byte>): Option<seq<LatLon>> {
    match DecodeFrom(bytes, Origin)
    case None => None
    case Some(points) => if points == [] then None else Some(ScaleAll(points))
  }

  // ---------------------------------------------------------------------------
  // The decoder
  // ---------------------------------------------------------------------------

  /** A group at its position: `weight` is two to the power `shift`. */
  function Shifted(group: int, weight: int): int {
    group * weight
  }

  /** Reads one value bit by bit; `result` is the 64-bit sum of the groups so far. */
  method DecodeValue(encoded: seq<Byte>, start: nat) returns (value: int, next: nat, ok: bool)
    requires start <= |encoded|
    ensures ok <==> FirstValue(encoded[start..]).Some?
    ensures ok ==> FirstValue(encoded[start..]) == Some((value, next - start)) && start < next <= |encoded|
    ensures !ok ==> next == |encoded|
  {
    var index, result, shift := start, 0, 0;
    ghost var sum := 0;
    NothingSoFar(FirstGroups(encoded[start..]));
    hide *;
    while true
      invariant start <= index <= |encoded|
      invariant 0 <= sum < Pow2(shift) && result == Wrap(sum)
      invariant FirstGroups(encoded[start..])
             == Collected(FirstGroups(encoded[index..]), sum, Pow2(shift), index - start)
      decreases |encoded| - index
    {
      if index >= |encoded| {
        assert encoded[index..] == [];
        NothingCollected(sum, Pow2(shift), index - start);
        ValueOfGroups(encoded[start..], sum, 0);
        return 0, index, false;
      }
      var b := encoded[index] as int - 63;
      ghost var rest := encoded[index..];
      assert rest[0] == encoded[index] && rest[1..] == encoded[index + 1..];
      var group := b % 32;
      OneGroup(rest, group, sum, shift, index - start);
      index := index + 1;
      result := BitOr(result, ShiftLeft(group, shift));
      sum := sum + Shifted(group, Pow2(shift));
      shift := shift + 5;
      if b < 0x20 {
        break;
      }
    }
    ValueOfGroups(encoded[start..], sum, index - start);
    value := if result % 2 != 0 then -(result / 2) - 1 else result / 2;
    next := index;
    ok := true;
  }

  lemma ValueOfGroups(bytes: seq<Byte>, sum: nat, used: nat)
    ensures FirstGroups(bytes).None? ==> FirstValue(bytes).None?
    ensures FirstGroups(bytes) == Some((sum, used)) ==>
              var r := Wrap(sum);
              && 0 < used <= |bytes|
              && FirstValue(bytes) == Some((if r % 2 != 0 then -(r / 2) - 1 else r / 2, used))
  {
    FirstGroupsFit(bytes);
    hide Wrap, FirstGroups;
  }

  lemma GroupStep(sum: nat, g: nat, shift: nat)
    requires sum < Pow2(shift) && g < 32
    ensures BitOr(Wrap(sum), ShiftLeft(g, shift)) == Wrap(sum + Shifted(g, Pow2(shift)))
    ensures 0 <= sum + Shifted(g, Pow2(shift)) < Pow2(shift + 5) == 32 * Pow2(shift)
  {
    hide Wrap, BitOr, ShiftLeft, Pow2;
    GroupIsAdded(sum, g, shift);
    FiveMoreBits(sum, g, shift);
  }

  /** The groups still to come, on top of `sum` collected from `used` bytes. */
  ghost function Collected(rest: Option<(int, nat)>, sum: int, weight: int, used: nat): Option<(int, nat)> {
    match rest
    case None => None
    case Some((more, n)) => Some((sum + Shifted(more, weight), n + used))
  }

  lemma NothingSoFar(groups: Option<(int, nat)>)
    ensures Pow2(0) == 1 && Wrap(0) == 0 && Collected(groups, 0, Pow2(0), 0) == groups
  {
  }

  lemma NothingCollected(sum: int, weight: int, used: nat)
    ensures Collected(FirstGroups([]), sum, weight, used) == None
  {
  }

  /** One turn of the loop: the first byte moves from what is still to come to `sum`. */
  lemma OneGroup(rest: seq<Byte>, group: int, sum: nat, shift: nat, used: nat)
    requires rest != [] && sum < Pow2(shift) && group == (rest[0] as int - 63) % 32
    ensures var sum' := sum + Shifted(group, Pow2(shift));
            && BitOr(Wrap(sum), ShiftLeft(group, shift)) == Wrap(sum') && 0 <= sum' < Pow2(shift + 5)
            && Collected(FirstGroups(rest), sum, Pow2(shift), used)
               == if rest[0] as int - 63 < 32 then Some((sum', used + 1))
                  else Collected(FirstGroups(rest[1..]), sum', Pow2(shift + 5), used + 1)
  {
    hide Shifted, Wrap, Pow2, BitOr, ShiftLeft, FirstGroups, WithFirst, Collected;
    GroupStep(sum, Bits(rest[0]), shift);
    OneByteLess(rest);
    CollectedStep(rest[0], FirstGroups(rest[1..]), sum, Pow2(shift), used);
  }

  lemma CollectedStep(b: Byte, tail: Option<(int, nat)>, sum: int, weight: int, used: nat)
    ensures var sum' := sum + Shifted(Bits(b), weight);
            Collected(WithFirst(b, tail), sum, weight, used) ==
            if Terminates(b) then Some((sum', used + 1)) else Collected(tail, sum', 32 * weight, used + 1)
  {
  }

  method DecodeEncodedPolyline(encoded: seq<Byte>) returns (points: seq<LatLon>, ok: bool)
    ensures ok <==> Decode(encoded).Some?
    ensures ok ==> points == Decode(encoded).value && Reads(points, DecodeFrom(encoded, Origin).value)
    ensures !ok ==> points == []
  {
    hide FirstValue, Wrap, Scale;
    points := [];
    var index, lat, lon := 0, 0, 0;
    ghost var done: seq<Point> := [];
    assert encoded[0..] == encoded;
    JoinedToNothing(DecodeFrom(encoded, Origin));
    while index < |encoded|
      invariant 0 <= index <= |encoded|
      invariant points == ScaleAll(done)
      invariant DecodeFrom(encoded, Origin) == Joined(done, DecodeFrom(encoded[index..], Point(lat, lon)))
      decreases |encoded| - index
    {
      hide DecodeFrom, ScaleAll, Joined;
      var dLat, next, fine := DecodeValue(encoded, index);
      if !fine {
        CutOff(encoded, index, index, Point(lat, lon), done);
        return [], false;
      }
      var dLon, next', fine' := DecodeValue(encoded, next);
      if !fine' {
        CutOff(encoded, index, next, Point(lat, lon), done);
        return [], false;
      }
      JoinedStep(encoded, index, next, next', dLat, dLon, Point(lat, lon), done);
      index := next';
      lat := Wrap(lat + dLat);
      lon := Wrap(lon + dLon);
      points := points + [Scale(Point(lat, lon))];
      ScaleOneMore(done, Point(lat, lon));
      done := done + [Point(lat, lon)];
    }
    assert encoded[index..] == [];
    ok := |points| > 0;
    ReadsItsOwn(done);
  }

  lemma ScaleOneMore(points: seq<Point>, p: Point)
    ensures ScaleAll(points + [p]) == ScaleAll(points) + [Scale(p)]
  {
  }

  lemma JoinedToNothing(rest: Option<seq<Point>>)
    ensures Joined([], rest) == rest
  {
    if rest.Some? {
      assert [] + rest.value == rest.value;
    }
  }

  /** A value without its terminator is an error, whichever of the two it is. */
  lemma CutOff(encoded: seq<Byte>, index: nat, next: nat, prior: Point, done: seq<Point>)
    requires index <= next <= |encoded| && index < |encoded|
    requires FirstValue(encoded[next..]).None?
    requires || index == next
             || (FirstValue(encoded[index..]).Some? && FirstValue(encoded[index..]).value.1 == next - index)
    ensures Joined(done, DecodeFrom(encoded[index..], prior)) == None
  {
  }

  /** The next point moves from what is still encoded to what is done. */
  lemma JoinedStep(encoded: seq<Byte>, index: nat, next: nat, next': nat, dLat: int, dLon: int,
                   prior: Point, done: seq<Point>)
    requires index < next < next' <= |encoded|
    requires FirstValue(encoded[index..]) == Some((dLat, next - index))
    requires FirstValue(encoded[next..]) == Some((dLon, next' - next))
    ensures var p := Move(prior, dLat, dLon);
            Joined(done, DecodeFrom(encoded[index..], prior)) == Joined(done + [p], DecodeFrom(encoded[next'..], p))
  {
    hide Move, FirstValue, Joined;
    assert encoded[index..][next - index..] == encoded[next..];
    assert encoded[index..][next' - index..] == encoded[next'..];
    JoinedTwice(done, Move(prior, dLat, dLon), DecodeFrom(encoded[next'..], Move(prior, dLat, dLon)));
  }

  lemma JoinedTwice(done: seq<Point>, p: Point, rest: Option<seq<Point>>)
    ensures Joined(done, Joined([p], rest)) == Joined(done + [p], rest)
  {
    if rest.Some? {
      assert done + ([p] + rest.value) == (done + [p]) + rest.value;
    }
  }
}
