/** Python's `round(x, digits)` on exact reals: the nearest multiple of
    10^-digits, a tie going to the even multiple. */
module Rounding {

  function Pow10(n: nat): (p: nat)
    ensures p >= 1
  {
    if n == 0 then 1 else 10 * Pow10(n - 1)
  }

  /** Half of one unit in the last kept digit. */
  function HalfUnit(digits: nat): (h: real)
    ensures h > 0.0
  {
    0.5 / Pow10(digits) as real
  }

  /** The integer nearest to `n`, a tie going to the even one. */
  function HalfEven(n: real): int
  {
    var f := n.Floor;
    var frac := n - f as real;
    if frac < 0.5 then f
    else if frac > 0.5 then f + 1
    else if f % 2 == 0 then f else f + 1
  }

  /** The integer count of 10^-digits units that `x` rounds to. */
  function RoundedUnits(x: real, digits: nat): int
  {
    HalfEven(x * Pow10(digits) as real)
  }

  function RoundTo(x: real, digits: nat): real
  {
    RoundedUnits(x, digits) as real / Pow10(digits) as real
  }

  lemma HalfEvenClose(n: real)
    ensures -0.5 <= HalfEven(n) as real - n <= 0.5
  {
  }

  /** The rounded unit count is within half a unit of the scaled value. */
  lemma UnitsClose(x: real, digits: nat)
    ensures var n := x * Pow10(digits) as real;
      -0.5 <= RoundedUnits(x, digits) as real - n <= 0.5
  {
    HalfEvenClose(x * Pow10(digits) as real);
  }

  lemma ScaleBounds(x: real, s: real)
    requires s > 0.0
    ensures x * s <= 0.5 <==> x <= 0.5 / s
    ensures -0.5 <= x * s <==> -(0.5 / s) <= x
  {
    assert (0.5 / s) * s == 0.5;
  }

  /** The nearest integer is 0 exactly when `n` is within half of 0 (a tie at
      +-0.5 goes to the even 0). */
  lemma HalfEvenZeroIff(n: real)
    ensures HalfEven(n) == 0 <==> -0.5 <= n <= 0.5
  {
    var f := n.Floor;
    assert f as real <= n < f as real + 1.0;
    if n < -0.5 {
      assert f <= -1;
      if f == -1 {
        assert n - f as real < 0.5;
      }
    } else if n > 0.5 {
      assert f >= 0;
      if f == 0 {
        assert n - f as real > 0.5;
      }
    } else if n < 0.0 {
      assert f == -1;
    } else {
      assert f == 0;
    }
  }

  /** The unit count is 0 exactly when the scaled value is within half a unit
      of 0. */
  lemma UnitsZeroIff(x: real, digits: nat)
    ensures RoundedUnits(x, digits) == 0 <==> -0.5 <= x * Pow10(digits) as real <= 0.5
  {
    HalfEvenZeroIff(x * Pow10(digits) as real);
  }

  lemma DivMonotone(a: real, b: real, s: real)
    requires a <= b && s > 0.0
    ensures a / s <= b / s
  {
    assert b / s - a / s == (b - a) / s;
  }

  /** A value rounds to zero exactly when it lies within half a unit of 0. */
  lemma RoundToZeroIff(x: real, digits: nat)
    ensures RoundTo(x, digits) == 0.0 <==> -HalfUnit(digits) <= x <= HalfUnit(digits)
  {
    var s := Pow10(digits) as real;
    var i := RoundedUnits(x, digits);
    assert RoundTo(x, digits) == 0.0 <==> i == 0 by {
      if i != 0 {
        assert (i as real / s) * s == i as real;
      }
    }
    UnitsZeroIff(x, digits);
    ScaleBounds(x, s);
  }

  /** Rounding moves a value by at most half a unit. */
  lemma RoundToError(x: real, digits: nat)
    ensures -HalfUnit(digits) <= RoundTo(x, digits) - x <= HalfUnit(digits)
  {
    var s := Pow10(digits) as real;
    var i := RoundedUnits(x, digits) as real;
    UnitsClose(x, digits);
    assert x == (x * s) / s;
    assert RoundTo(x, digits) - x == (i - x * s) / s;
    DivMonotone(i - x * s, 0.5, s);
    DivMonotone(-0.5, i - x * s, s);
    assert -0.5 / s == -(0.5 / s);
  }

  /** A value already on the grid of 10^-digits is unchanged. */
  lemma RoundToExact(units: int, digits: nat)
    ensures RoundTo(units as real / Pow10(digits) as real, digits) == units as real / Pow10(digits) as real
  {
    var s := Pow10(digits) as real;
    var x := units as real / s;
    assert x * s == units as real;
    assert (units as real).Floor == units;
    assert HalfEven(units as real) == units;
    assert RoundedUnits(x, digits) == units;
  }
}
