/** Double-precision numbers from one upwards, as IEEE 754 rounds them. */
module Floats {
  import opened Numeric

  const TWO_POW_52 := 4_503_599_627_370_496.0
  const TWO_POW_53 := 9_007_199_254_740_992.0

  /** The distance between neighbouring doubles at `x`. */
  function Ulp(x: real): (u: real)
    requires x >= 1.0
    ensures u > 0.0 && u * TWO_POW_52 <= x < u * TWO_POW_53
    decreases x.Floor
  {
    if x < 2.0 then 1.0 / TWO_POW_52 else 2.0 * Ulp(x / 2.0)
  }

  /** The double nearest to `x`, the even one of two. */
  function Double(x: real): real
    requires x == 0.0 || x >= 1.0
  {
    if x == 0.0 then 0.0 else RoundHalfEven(x / Ulp(x)) as real * Ulp(x)
  }

  lemma Scales(a: real, b: real, u: real)
    requires a <= b && u > 0.0
    ensures a * u <= b * u
  {
    assert (b - a) * u >= 0.0;
  }

  lemma HalfUnit(x: real, u: real)
    requires u * TWO_POW_52 <= x
    ensures 0.5 * u <= x / TWO_POW_53
  {
  }

  lemma InUnits(x: real, u: real)
    requires u > 0.0
    ensures (x / u) * u == x
  {
  }

  lemma NearInUnits(x: real, y: real, r: real, u: real)
    requires u > 0.0 && y * u == x && y - 0.5 <= r <= y + 0.5
    ensures x - 0.5 * u <= r * u <= x + 0.5 * u
  {
    Scales(y - 0.5, r, u);
    Scales(r, y + 0.5, u);
  }

  lemma NearWhole(x: real, u: real, r: real)
    requires u > 0.0 && u * TWO_POW_52 <= x && x / u - 0.5 <= r <= x / u + 0.5
    ensures x - x / TWO_POW_53 <= r * u <= x + x / TWO_POW_53
  {
    InUnits(x, u);
    NearInUnits(x, x / u, r, u);
    HalfUnit(x, u);
  }

  /** A double is off by half a unit in the last place at most, and so by one part in two to the fifty-third. */
  lemma DoubleIsNear(x: real)
    requires x == 0.0 || x >= 1.0
    ensures x - x / TWO_POW_53 <= Double(x) <= x + x / TWO_POW_53
  {
    if x > 0.0 {
      RoundingIsNear(x / Ulp(x));
      NearWhole(x, Ulp(x), RoundHalfEven(x / Ulp(x)) as real);
    }
  }
}
