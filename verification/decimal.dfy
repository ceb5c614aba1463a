/**
 * Exact decimal arithmetic as the ledger uses it: BigDecimal#round with its
 * default ROUND_HALF_UP mode (ties away from zero), and the two scaling
 * helpers Utils.to_decimal and Utils.to_integer. Every amount is an exact
 * rational (`real`); nothing here models floating point.
 */
module Decimal {

  /** 10 to the power n. */
  function Pow10(n: nat): (p: nat)
    ensures p >= 1
  {
    if n == 0 then 1 else 10 * Pow10(n - 1)
  }

  /** Powers of ten multiply by adding exponents. */
  lemma {:induction false} Pow10Add(a: nat, b: nat)
    ensures Pow10(a + b) == Pow10(a) * Pow10(b)
    decreases b
  {
    if b > 0 {
      Pow10Add(a, b - 1);
      assert Pow10(a + b) == 10 * Pow10(a + b - 1);
    }
  }

  /** 10^n as an exact rational. */
  function Unit(n: nat): (p: real)
    ensures p >= 1.0
  {
    Pow10(n) as real
  }

  /** 10^(a+b) is 10^a times 10^b, on rationals. */
  lemma UnitAdd(a: nat, b: nat)
    ensures Unit(a + b) == Unit(a) * Unit(b)
  {
    Pow10Add(a, b);
  }

  // Small facts of field arithmetic, stated for an arbitrary positive scale
  // so that the solver never has to unfold Pow10 while reasoning about them.

  lemma DivThenMul(x: real, p: real)
    requires p > 0.0
    ensures (x / p) * p == x
  {
  }

  lemma MulThenDiv(x: real, p: real)
    requires p > 0.0
    ensures (x * p) / p == x
  {
  }

  lemma MulMonotone(x: real, y: real, p: real)
    requires p > 0.0 && x <= y
    ensures x * p <= y * p
  {
  }

  lemma DivMonotone(x: real, y: real, p: real)
    requires p > 0.0 && x <= y
    ensures x / p <= y / p
  {
  }

  lemma MulDistributes(x: real, y: real, p: real)
    ensures (x - y) * p == x * p - y * p
    ensures (-x) * p == -(x * p)
  {
  }

  /** x times 10^s, for a scale s of either sign. */
  function Shift(x: real, s: int): real
  {
    if s >= 0 then x * Unit(s) else x / Unit(-s)
  }

  lemma ScaleDown(r: real, u: real, p: real, q: real)
    requires p > 0.0 && q > 0.0 && r * (p * q) == u
    ensures r * q == u / p
  {
  }

  /** Shifting by s and then by -s gives back the number. */
  lemma ShiftInverse(x: real, s: int)
    ensures Shift(Shift(x, -s), s) == x
  {
    if s >= 0 {
      DivThenMul(x, Unit(s));
    } else {
      MulThenDiv(x, Unit(-s));
    }
  }

  /** Truncation toward zero, as Ruby's to_i on a BigDecimal. */
  function Truncate(x: real): (k: int)
    ensures x >= 0.0 ==> 0 <= k && k as real <= x < k as real + 1.0
    ensures x < 0.0 ==> k <= 0 && k as real - 1.0 < x <= k as real
  {
    if x >= 0.0 then x.Floor else -((-x).Floor)
  }

  /** Utils.to_decimal: an integer count of 10^-s units read as a decimal. */
  function ToDecimal(x: real, s: int): real
  {
    Shift(x, -s)
  }

  /** Utils.to_integer: a decimal written as a whole count of 10^-s units, truncated. */
  function ToInteger(x: real, s: int): int
  {
    Truncate(Shift(x, s))
  }

  /** A count of 10^-s units read as a decimal is that count divided by 10^s. */
  lemma ToDecimalScales(x: real, s: nat)
    ensures ToDecimal(x, s) * Unit(s) == x
  {
    if s > 0 {
      DivThenMul(x, Unit(s));
    } else {
      assert Unit(0) == 1.0;
    }
  }

  /** Converting a whole number of units to a decimal and back is the identity. */
  lemma ToIntegerToDecimal(k: int, s: int)
    ensures ToInteger(ToDecimal(k as real, s), s) == k
  {
    ShiftInverse(k as real, s);
  }

  /**
   * The defining property of half-up rounding to n places: k units of 10^-n
   * are the grid point nearest to x; a tie goes to the point farther from zero.
   */
  predicate IsHalfUpUnits(x: real, n: nat, k: int)
  {
    var y := x * Unit(n);
    if y >= 0.0 then k as real - 0.5 <= y < k as real + 0.5
    else k as real - 0.5 < y <= k as real + 0.5
  }

  /** The number of 10^-n units that x rounds to: sign(x) * floor(|x| * 10^n + 1/2). */
  function HalfUpUnits(x: real, n: nat): (k: int)
    ensures IsHalfUpUnits(x, n, k)
  {
    var y := x * Unit(n);
    if y >= 0.0 then (y + 0.5).Floor else -((0.5 - y).Floor)
  }

  /** At most one grid point satisfies the half-up rule, so HalfUpUnits is the rule's only answer. */
  lemma HalfUpUnitsUnique(x: real, n: nat, k: int)
    requires IsHalfUpUnits(x, n, k)
    ensures k == HalfUpUnits(x, n)
  {
    var j := HalfUpUnits(x, n);
    assert -1.0 < k as real - j as real < 1.0;
  }

  /** BigDecimal#round(n) in the default ROUND_HALF_UP mode. */
  function RoundHalfUp(x: real, n: nat): (r: real)
    ensures r * Unit(n) == HalfUpUnits(x, n) as real
    ensures -0.5 <= (r - x) * Unit(n) <= 0.5
  {
    var p := Unit(n);
    var k := HalfUpUnits(x, n) as real;
    DivThenMul(k, p);
    MulDistributes(k / p, x, p);
    k / p
  }

  /** Rounding commutes with negation: ties go away from zero on both sides. */
  lemma RoundHalfUpNegate(x: real, n: nat)
    ensures RoundHalfUp(-x, n) == -RoundHalfUp(x, n)
  {
    var p := Unit(n);
    MulDistributes(x, 0.0, p);
    var k := HalfUpUnits(x, n);
    assert IsHalfUpUnits(-x, n, -k);
    HalfUpUnitsUnique(-x, n, -k);
    NegateScaled(RoundHalfUp(x, n), RoundHalfUp(-x, n), p);
  }

  /** Two numbers whose multiples by the same positive p are opposite are opposite. */
  lemma NegateScaled(a: real, b: real, p: real)
    requires p > 0.0 && b * p == -(a * p)
    ensures b == -a
  {
    MulDistributes(a, 0.0, p);
    MulThenDiv(b, p);
    MulThenDiv(-a, p);
  }

  /** A number already on the 10^-n grid is left unchanged. */
  lemma RoundHalfUpOnGrid(k: int, n: nat)
    ensures RoundHalfUp(k as real / Unit(n), n) == k as real / Unit(n)
  {
    var p := Unit(n);
    var x := k as real / p;
    DivThenMul(k as real, p);
    assert IsHalfUpUnits(x, n, k);
    HalfUpUnitsUnique(x, n, k);
  }

  /** Rounding twice to the same number of places is rounding once. */
  lemma RoundHalfUpIdempotent(x: real, n: nat)
    ensures RoundHalfUp(RoundHalfUp(x, n), n) == RoundHalfUp(x, n)
  {
    RoundHalfUpOnGrid(HalfUpUnits(x, n), n);
  }

  lemma FloorMonotone(a: real, b: real)
    requires a <= b
    ensures a.Floor <= b.Floor
  {
  }

  /** Rounding never reverses the order of two numbers. */
  lemma RoundHalfUpMonotone(x: real, y: real, n: nat)
    requires x <= y
    ensures RoundHalfUp(x, n) <= RoundHalfUp(y, n)
  {
    var p := Unit(n);
    MulMonotone(x, y, p);
    var kx, ky := HalfUpUnits(x, n), HalfUpUnits(y, n);
    if x * p >= 0.0 {
      FloorMonotone(x * p + 0.5, y * p + 0.5);
    } else if y * p < 0.0 {
      FloorMonotone(0.5 - y * p, 0.5 - x * p);
    }
    assert kx <= ky;
    DivMonotone(kx as real, ky as real, p);
  }

  /**
   * Two numbers that round to the same n-place value differ by less than one
   * unit in the n-th place: this is the tolerance the rate check accepts.
   */
  lemma SameRoundingClose(x: real, y: real, n: nat)
    requires RoundHalfUp(x, n) == RoundHalfUp(y, n)
    ensures -1.0 < (x - y) * Unit(n) < 1.0
  {
    var p := Unit(n);
    assert HalfUpUnits(x, n) == HalfUpUnits(y, n);
    MulDistributes(x, y, p);
  }

  /** Shifting a count of 10^-n units by n - m places gives the count divided by 10^m. */
  lemma ShiftScaled(r: real, u: real, n: nat, m: nat)
    requires r * Unit(n) == u
    ensures Shift(r, n - m) == u / Unit(m)
  {
    if m <= n {
      ShiftScaledDown(r, u, n - m, m);
    } else {
      ShiftScaledUp(r, u, n, m - n);
    }
  }

  /** The case of a non-negative shift d: r has n = m + d places. */
  lemma ShiftScaledDown(r: real, u: real, d: nat, m: nat)
    requires r * Unit(m + d) == u
    ensures Shift(r, d) == u / Unit(m)
  {
    UnitAdd(m, d);
    ScaleDown(r, u, Unit(m), Unit(d));
  }

  /** The case of a negative shift -d: m = n + d. */
  lemma ShiftScaledUp(r: real, u: real, n: nat, d: nat)
    requires d > 0 && r * Unit(n) == u
    ensures Shift(r, -(d as int)) == u / Unit(n + d)
  {
    UnitAdd(n, d);
    ScaleUp(r, u, Unit(n), Unit(d));
  }

  lemma ScaleUp(r: real, u: real, p: real, q: real)
    requires p > 0.0 && q > 0.0 && r * p == u
    ensures r / q == u / (p * q)
  {
  }

  /**
   * A value rounded to n places and written as a whole count of 10^-(n-m)
   * units is its count of 10^-n units divided by 10^m and truncated.
   */
  lemma ToIntegerOfRounded(x: real, n: nat, m: nat)
    ensures ToInteger(RoundHalfUp(x, n), n - m) == Truncate(HalfUpUnits(x, n) as real / Unit(m))
  {
    ShiftScaled(RoundHalfUp(x, n), HalfUpUnits(x, n) as real, n, m);
  }
}
