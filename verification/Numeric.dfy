/** Decimal values against NUMERIC(precision, scale) columns. */
module Numeric {
  import opened Wrappers

  function Abs(x: real): real {
    if x < 0.0 then -x else x
  }

  function Pow10(n: nat): (r: int)
    ensures r > 0
    ensures n > 0 ==> r % 10 == 0
  {
    if n == 0 then 1 else 10 * Pow10(n - 1)
  }

  /** The nearest integer; halfway cases go to the even neighbour, as decimal arithmetic does by default. */
  function RoundHalfEven(x: real): int {
    var floor := x.Floor;
    var rest := x - floor as real;
    if rest < 0.5 then floor
    else if rest > 0.5 then floor + 1
    else if floor % 2 == 0 then floor
    else floor + 1
  }

  lemma RoundingIsNear(y: real)
    ensures y - 0.5 <= RoundHalfEven(y) as real <= y + 0.5
  {
  }

  /** The nearest integer; halfway cases go away from zero, as the database does. */
  function RoundHalfAway(x: real): int {
    if x >= 0.0 then (x + 0.5).Floor else -((-x + 0.5).Floor)
  }

  /** `value` in units of the last of `scale` decimals. */
  function Scaled(value: real, scale: nat): real {
    value * Pow10(scale) as real
  }

  /** A decimal value as the parser leaves it; JSON numbers and texts can also be not a number, or infinite. */
  datatype Decimal = Finite(value: real) | NaN | Infinite

  /**
   Whether the value, rounded to `scale` decimals, stays below the column's limit; `None` when finding out
   raises.  Rounding raises when the result needs more than `digits` significant digits, the precision
   of the decimal context, and for an infinity; what is not a number rounds but cannot be compared.
   */
  function FitsNumeric(value: Decimal, precision: nat, scale: nat, digits: nat): Option<bool>
    requires scale <= precision
  {
    match value
    case Finite(x) =>
      var units := RoundHalfEven(Scaled(x, scale));
      if Abs(units as real) >= Pow10(digits) as real then None
      else Some(Abs(units as real / Pow10(scale) as real) < Pow10(precision - scale) as real)
    case NaN => None
    case Infinite => None
  }

  /** What the database itself checks before it stores the value. */
  predicate ColumnAccepts(value: real, precision: nat, scale: nat) {
    Abs(RoundHalfAway(Scaled(value, scale)) as real) < Pow10(precision) as real
  }

  lemma TenTimes(p: int, q: int)
    ensures 10 * (p * q) == (10 * p) * q
  {
  }

  lemma {:induction false} Pow10Sum(a: nat, b: nat)
    ensures Pow10(a + b) == Pow10(a) * Pow10(b)
  {
    if a == 0 {
    } else {
      Pow10Sum(a - 1, b);
      TenTimes(Pow10(a - 1), Pow10(b));
    }
  }

  lemma AbsQuotient(x: real, p: real)
    requires p > 0.0
    ensures Abs(x / p) == Abs(x) / p
  {
    assert (x / p) * p == x;
    if x < 0.0 {
      assert -(x / p) == (-x) / p;
    }
  }

  lemma DivideBelow(x: real, p: real, q: real)
    requires p > 0.0
    ensures x / p < q <==> x < p * q
  {
    assert (x / p) * p == x;
    if x / p < q {
      assert (x / p) * p < q * p;
    }
    if x / p >= q {
      assert (x / p) * p >= q * p;
    }
  }

  lemma QuotientBelow(x: real, p: real, q: real)
    requires p > 0.0
    ensures Abs(x / p) < q <==> Abs(x) < p * q
  {
    AbsQuotient(x, p);
    DivideBelow(Abs(x), p, q);
  }

  lemma UnitsBelow(units: int, p: int, q: int, limit: int)
    requires p > 0 && limit == p * q
    ensures Abs(units as real / p as real) < q as real <==> Abs(units as real) < limit as real
  {
    assert limit as real == p as real * q as real;
    QuotientBelow(units as real, p as real, q as real);
  }

  /** Below the limit in the column's own units. */
  lemma LimitInUnits(units: int, precision: nat, scale: nat)
    requires scale <= precision
    ensures Abs(units as real / Pow10(scale) as real) < Pow10(precision - scale) as real
            <==> Abs(units as real) < Pow10(precision) as real
  {
    Pow10Sum(scale, precision - scale);
    UnitsBelow(units, Pow10(scale), Pow10(precision - scale), Pow10(precision));
  }

  lemma HalfEvenIsOdd(x: real)
    ensures RoundHalfEven(-x) == -RoundHalfEven(x)
  {
    var floor := x.Floor;
    if x == floor as real {
      assert (-x).Floor == -floor;
    } else {
      assert (-x).Floor == -floor - 1;
    }
  }

  lemma HalfEvenBelow(x: real, limit: int)
    requires x >= 0.0 && limit > 0 && limit % 2 == 0
    ensures 0 <= RoundHalfEven(x)
    ensures RoundHalfEven(x) < limit <==> x < limit as real - 0.5
  {
    var floor := x.Floor;
    assert floor as real <= x < floor as real + 1.0;
    assert floor >= 0;
    if floor >= limit {
    } else if floor < limit - 1 {
      assert floor as real <= limit as real - 2.0;
    } else {
      assert floor % 2 == 1;
    }
  }

  lemma HalfAwayBelow(x: real, limit: int)
    requires x >= 0.0
    ensures 0 <= RoundHalfAway(x)
    ensures RoundHalfAway(x) < limit <==> x < limit as real - 0.5
  {
    var r := (x + 0.5).Floor;
    assert r as real <= x + 0.5 < r as real + 1.0;
  }

  /**
   Half-even and half-away rounding pass the same values: they can part only halfway between two
   integers, and halfway below the limit both go up to it, since the limit is even.
   */
  lemma RoundingsPassTheSame(x: real, limit: int)
    requires limit > 0 && limit % 2 == 0
    ensures Abs(RoundHalfEven(x) as real) < limit as real <==> Abs(RoundHalfAway(x) as real) < limit as real
    ensures Abs(RoundHalfEven(x) as real) < limit as real <==> Abs(x) < limit as real - 0.5
  {
    HalfEvenIsOdd(x);
    HalfEvenBelow(Abs(x), limit);
    HalfAwayBelow(Abs(x), limit);
    var even, away := RoundHalfEven(x), RoundHalfAway(x);
    if x < 0.0 {
      assert RoundHalfEven(Abs(x)) == -even && RoundHalfAway(Abs(x)) == -away;
    }
  }

  lemma {:induction false} Pow10IsEven(n: nat)
    requires n > 0
    ensures Pow10(n) % 2 == 0
  {
    var tens := Pow10(n);
    assert tens % 10 == 0;
  }

  lemma {:induction false} FitsNumericInUnits(x: real, precision: nat, scale: nat, digits: nat)
    requires scale <= precision && FitsNumeric(Finite(x), precision, scale, digits).Some?
    ensures FitsNumeric(Finite(x), precision, scale, digits).value
            <==> Abs(RoundHalfEven(Scaled(x, scale)) as real) < Pow10(precision) as real
  {
    LimitInUnits(RoundHalfEven(Scaled(x, scale)), precision, scale);
  }

  /** The check passes exactly the values that the column takes: those less than half a unit below the limit. */
  lemma {:induction false} FitsNumericMirrorsColumn(value: Decimal, precision: nat, scale: nat, digits: nat)
    requires scale <= precision && precision > 0
    requires FitsNumeric(value, precision, scale, digits).Some?
    ensures value.Finite?
    ensures FitsNumeric(value, precision, scale, digits).value <==> ColumnAccepts(value.value, precision, scale)
    ensures FitsNumeric(value, precision, scale, digits).value
            <==> Abs(Scaled(value.value, scale)) < Pow10(precision) as real - 0.5
  {
    FitsNumericInUnits(value.value, precision, scale, digits);
    Pow10IsEven(precision);
    RoundingsPassTheSame(Scaled(value.value, scale), Pow10(precision));
  }

  /** The check raises exactly for values that are not finite or too long for the decimal context. */
  lemma {:induction false} FitsNumericRaisesIff(value: Decimal, precision: nat, scale: nat, digits: nat)
    requires scale <= precision && digits > 0
    ensures FitsNumeric(value, precision, scale, digits).None?
            <==> !value.Finite? || Abs(Scaled(value.value, scale)) >= Pow10(digits) as real - 0.5
  {
    if value.Finite? {
      Pow10IsEven(digits);
      RoundingsPassTheSame(Scaled(value.value, scale), Pow10(digits));
    }
  }
}
