/**
 JavaScript's Math.round over exact reals: the nearest integer, halves going up.
 Money is held in minor units (cents), so this is the only place a cent can appear or vanish.
 */
module Rounding {

  function Round(x: real): int {
    (x + 0.5).Floor
  }

  function Max(a: real, b: real): real {
    if a >= b then a else b
  }

  /** The rounded value is at most half a unit away; only an exact half is rounded up by a full half. */
  lemma RoundNear(x: real)
    ensures x - 0.5 < Round(x) as real <= x + 0.5
  {
  }

  lemma RoundIsExactOnIntegers(n: int)
    ensures Round(n as real) == n
  {
  }

  /** A fraction strictly between nought and a half is what rounding drops. */
  lemma RoundsDown(x: real)
    ensures x - Round(x) as real > 0.0 <==> 0.0 < x - x.Floor as real < 0.5
  {
    var f := x.Floor;
    if x < f as real + 0.5 {
      assert Round(x) == f;
    } else {
      assert Round(x) == f + 1;
    }
  }

  lemma RoundMonotone(x: real, y: real)
    requires x <= y
    ensures Round(x) <= Round(y)
  {
  }

  lemma RoundNonNegative(x: real)
    requires 0.0 <= x
    ensures 0 <= Round(x)
  {
  }

  lemma ProductNonNegative(x: real, y: real)
    requires 0.0 <= x && 0.0 <= y
    ensures 0.0 <= x * y
  {
  }

  /** A share between 0 and 1 of an amount is between zero and the amount. */
  lemma ShareBetween(x: real, share: real, part: real)
    requires 0.0 <= x && 0.0 <= share <= 1.0 && part == x * share
    ensures 0.0 <= part <= x
  {
    ProductNonNegative(x, share);
    ProductNonNegative(x, 1.0 - share);
    assert x * (1.0 - share) == x - part;
  }

  /** ... and rounding the part never takes it above the rounded amount. */
  lemma RoundOfShare(x: real, share: real, part: real)
    requires 0.0 <= x && 0.0 <= share <= 1.0 && part == x * share
    ensures 0 <= Round(part) <= Round(x)
  {
    ShareBetween(x, share, part);
    RoundMonotone(part, x);
  }
}
