/** Go's 64-bit `int` as whole numbers: wrapping, and the two operations of the
    polyline decoder that work on bits. */
module Int64 {

  const TwoTo63 := 0x8000_0000_0000_0000
  const TwoTo64 := 0x1_0000_0000_0000_0000

  /** Two's complement in 64 bits. */
  function Wrap(x: int): int {
    (x + TwoTo63) % TwoTo64 - TwoTo63
  }

  predicate FitsInt(x: int) {
    -TwoTo63 <= x < TwoTo63
  }

  function Pow2(k: nat): (p: nat)
    ensures p > 0
  {
    if k == 0 then 1 else 2 * Pow2(k - 1)
  }

  /** The 64 bits of an `int`, read as a natural number. */
  function Pattern(x: int): nat {
    x % TwoTo64
  }

  /** Bit by bit, lowest first. */
  function Or(a: nat, b: nat): nat {
    if a == 0 then b else (if a % 2 == 1 || b % 2 == 1 then 1 else 0) + 2 * Or(a / 2, b / 2)
  }

  /** Go's `x | y`. */
  function BitOr(x: int, y: int): int {
    Wrap(Or(Pattern(x), Pattern(y)))
  }

  /** Go's `x << shift`: what passes bit 63 is lost, all of it from a shift of 64 on. */
  function ShiftLeft(x: int, shift: nat): int {
    Wrap(x * Pow2(shift))
  }

  // ---------------------------------------------------------------------------
  // Wrapping
  // ---------------------------------------------------------------------------

  lemma WrapFits(x: int)
    ensures FitsInt(Wrap(x))
    ensures FitsInt(x) ==> Wrap(x) == x
  {
  }

  /** Wrapping forgets multiples of 2^64 and nothing else. */
  lemma WrapIsModular(x: int, y: int)
    ensures Wrap(x) == Wrap(y) <==> (x - y) % TwoTo64 == 0
  {
  }

  lemma WrapForgets(x: int, q: int)
    ensures Wrap(x + q * TwoTo64) == Wrap(x)
  {
    assert (x + q * TwoTo64 - x) % TwoTo64 == 0;
    WrapIsModular(x + q * TwoTo64, x);
  }

  lemma PatternWraps(x: int)
    ensures Pattern(Wrap(x)) == Pattern(x) && Wrap(Pattern(x)) == Wrap(x)
  {
  }

  lemma WrapAgain(x: int, y: int)
    ensures Wrap(Wrap(x) + y) == Wrap(x + y)
  {
    WrapIsModular(Wrap(x) + y, x + y);
  }

  // ---------------------------------------------------------------------------
  // Shift and or
  // ---------------------------------------------------------------------------

  lemma {:induction false} PowersAdd(a: nat, b: nat)
    ensures Pow2(a + b) == Pow2(a) * Pow2(b)
  {
    PowerStep(a);
    PowerStep(a + b);
    hide Pow2;
    if a > 0 {
      PowersAdd(a - 1, b);
      Doubled(Pow2(a - 1), Pow2(b));
    } else {
      assert Pow2(a + b) == Pow2(b);
    }
  }

  lemma PowerStep(a: nat)
    ensures Pow2(a) == if a == 0 then 1 else 2 * Pow2(a - 1)
  {
  }

  lemma Pow2Of8()
    ensures Pow2(8) == 256
  {
    assert Pow2(4) == 16;
  }

  lemma Pow2Of64()
    ensures Pow2(64) == TwoTo64
  {
    hide Pow2;
    Pow2Of8();
    PowersAdd(8, 8);
    PowersAdd(16, 16);
    PowersAdd(32, 32);
  }

  lemma {:induction false} OrWithNothing(a: nat)
    ensures Or(a, 0) == a
  {
    if a > 0 {
      OrWithNothing(a / 2);
    }
  }

  /** Below bit `k` on the left, at and above it on the right: or is addition. */
  lemma {:induction false} OrIsSum(a: nat, c: nat, k: nat)
    requires a < Pow2(k)
    ensures Or(a, c * Pow2(k)) == a + c * Pow2(k)
    decreases k
  {
    if k > 0 && a > 0 {
      var half := c * Pow2(k - 1);
      assert c * Pow2(k) == 2 * half by {
        Doubled(c, Pow2(k - 1));
      }
      OrIsSum(a / 2, c, k - 1);
      assert Or(a, 2 * half) == a % 2 + 2 * Or(a / 2, half);
    }
  }

  lemma Doubled(c: nat, p: nat)
    ensures c * (2 * p) == 2 * (c * p)
  {
  }

  /** What is left of `g << shift` is a multiple of 2^shift, and what is lost one of 2^64. */
  lemma ShiftedPattern(g: nat, shift: nat) returns (c: nat, q: nat)
    requires shift <= 64
    ensures Pattern(ShiftLeft(g, shift)) == c * Pow2(shift)
    ensures g * Pow2(shift) == c * Pow2(shift) + q * TwoTo64
  {
    hide Pow2, Wrap, Pattern;
    var top, p := Pow2(64 - shift), Pow2(shift);
    Pow2Of64();
    PowersAdd(64 - shift, shift);
    c, q := Divide(g, top);
    Split(g, c, q, top, p);
    Bounded(c, top, p);
    PatternWraps(g * p);
    PatternOf(c * p, q);
  }

  lemma Divide(g: nat, top: nat) returns (c: nat, q: nat)
    requires top > 0
    ensures g == q * top + c && c < top
  {
    c, q := g % top, g / top;
  }

  lemma Split(g: nat, c: nat, q: nat, top: nat, p: nat)
    requires g == q * top + c
    ensures g * p == c * p + q * (top * p)
  {
  }

  lemma Bounded(c: nat, top: nat, p: nat)
    requires c < top && p > 0
    ensures c * p < top * p
  {
  }

  lemma PatternOf(x: nat, q: nat)
    requires x < TwoTo64
    ensures Pattern(x + q * TwoTo64) == x
  {
  }

  /** `result |= g << shift`, with `result` collected from the groups below `shift`,
      adds the group at its place, in 64 bits. */
  lemma GroupIsAdded(sum: nat, g: nat, shift: nat)
    requires sum < Pow2(shift)
    ensures BitOr(Wrap(sum), ShiftLeft(g, shift)) == Wrap(sum + g * Pow2(shift))
  {
    hide Wrap, Pattern, Or, Pow2;
    PatternWraps(sum);
    if shift <= 64 {
      var c, q := ShiftedPattern(g, shift);
      SmallPattern(sum, shift);
      OrIsSum(sum, c, shift);
      WrapForgets(sum + c * Pow2(shift), q);
    } else {
      Pow2Of64();
      PowersAdd(shift - 64, 64);
      var q := g * Pow2(shift - 64);
      Regroup(g, Pow2(shift - 64));
      PatternWraps(g * Pow2(shift));
      Vanishes(q);
      OrWithNothing(Pattern(sum));
      WrapForgets(sum, q);
    }
  }

  lemma SmallPattern(sum: nat, shift: nat)
    requires shift <= 64 && sum < Pow2(shift)
    ensures Pattern(sum) == sum
  {
    Pow2Of64();
    PowersAdd(64 - shift, shift);
    AtLeast(Pow2(64 - shift), Pow2(shift));
  }

  lemma AtLeast(a: nat, b: nat)
    requires a > 0
    ensures a * b >= b
  {
  }

  lemma Regroup(g: nat, p: nat)
    ensures g * (p * TwoTo64) == g * p * TwoTo64
  {
  }

  lemma Vanishes(q: nat)
    ensures Pattern(q * TwoTo64) == 0
  {
  }

  lemma FiveMoreBits(sum: nat, g: nat, shift: nat)
    requires sum < Pow2(shift) && g < 32
    ensures Pow2(shift + 5) == 32 * Pow2(shift)
    ensures sum + g * Pow2(shift) < Pow2(shift + 5)
  {
    PowersAdd(shift, 5);
    assert Pow2(5) == 32;
    GroupFits(g, Pow2(shift));
  }

  lemma GroupFits(g: nat, p: nat)
    requires g < 32
    ensures g * p + p <= 32 * p
  {
    assert g * p + p == (g + 1) * p;
    assert 32 * p - (g + 1) * p == (31 - g) * p;
  }
}
