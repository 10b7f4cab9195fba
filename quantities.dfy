/**
 * The spillage arithmetic shared by order creation, the procurement report,
 * the product detail view and the capacity report.
 *
 * A spillage coefficient s is kept as the integer k = s * 10000, so that
 * every quantity below is exact: the per-unit requirement q * (1 + s) is the
 * rational q * (10000 + k) / 10000, an order of n units needs the ceiling of
 * n times that, and one BOM line allows the floor of in_stock divided by it.
 */
module Quantities {
  import opened Models

  /** The exact per-unit quantity with spillage, `Decimal(q) * (1 + s)`. */
  function QuantityWithSpillage(q: int, k: int): (x: real) {
    q as real * (1.0 + k as real / SPILLAGE_SCALE as real)
  }

  /** The exact requirement of an order of n units, `exact_per_unit * n`. */
  function ExactTotal(q: int, k: int, n: int): (x: real) {
    QuantityWithSpillage(q, k) * n as real
  }

  /** The same quantity in ten-thousandths of a unit. */
  function ScaledTotal(q: int, k: int, n: int): (x: int) {
    q * n * (SPILLAGE_SCALE + k)
  }

  /** The requirement rounded up to whole units (`math.ceil(exact_total)`). */
  function Needed(q: int, k: int, n: int): (needed: int)
    requires q > 0 && n > 0 && SpillageInRange(k)
  {
    (ScaledTotal(q, k, n) + SPILLAGE_SCALE - 1) / SPILLAGE_SCALE
  }

  /**
   * How many units one BOM line allows with `inStock` units in stock:
   * `int(in_stock / required_per_unit)` when the per-unit requirement is
   * positive, and 0 otherwise. The stock is never negative, so truncation
   * and floor agree.
   */
  function LineBound(inStock: int, q: int, k: int): (bound: int)
    requires inStock >= 0 && SpillageInRange(k)
  {
    var perUnit := q * (SPILLAGE_SCALE + k);
    if perUnit > 0 then (inStock * SPILLAGE_SCALE) / perUnit else 0
  }

  // ---------------------------------------------------------------------------
  // Properties
  // ---------------------------------------------------------------------------

  lemma ScaledTotalIsExact(q: int, k: int, n: int)
    ensures ExactTotal(q, k, n) == ScaledTotal(q, k, n) as real / SPILLAGE_SCALE as real
  {
    var Q, K, N := q as real, k as real, n as real;
    calc {
      ExactTotal(q, k, n);
      Q * (1.0 + K / 10000.0) * N;
      (Q * N * (10000.0 + K)) / 10000.0;
      { assert (q * n * (10000 + k)) as real == Q * N * (10000.0 + K); }
      ScaledTotal(q, k, n) as real / 10000.0;
    }
  }

  /** The ceiling of the scaled total lies within one unit above it. */
  lemma NeededScaledBounds(q: int, k: int, n: int)
    requires q > 0 && n > 0 && SpillageInRange(k)
    ensures ScaledTotal(q, k, n) <= Needed(q, k, n) * SPILLAGE_SCALE < ScaledTotal(q, k, n) + SPILLAGE_SCALE
  {
    var a := ScaledTotal(q, k, n);
    var d := Needed(q, k, n);
    assert a + 9999 == 10000 * d + (a + 9999) % 10000;
  }

  /**
   * The allocated quantity is the least whole number of units covering the
   * exact requirement q * (1 + s) * n: never below it, and less than one
   * unit above it. It is at least q * n, so at least 1.
   */
  lemma NeededIsCeiling(q: int, k: int, n: int)
    requires q > 0 && n > 0 && SpillageInRange(k)
    ensures Needed(q, k, n) as real >= ExactTotal(q, k, n)
    ensures Needed(q, k, n) as real - 1.0 < ExactTotal(q, k, n)
    ensures Needed(q, k, n) >= q * n >= 1
  {
    NeededScaledBounds(q, k, n);
    ScaledTotalIsExact(q, k, n);
    var a := ScaledTotal(q, k, n);
    var d := Needed(q, k, n);
    assert (d * 10000) as real == d as real * 10000.0;
    assert (a as real) <= d as real * 10000.0;
    assert d as real * 10000.0 < a as real + 10000.0;
    assert a == (q * n) * (10000 + k);
    MulMonotone(q * n, 10000 + k, 10000);
    assert q * n >= 1 by { MulMonotone(q, n, 1); }
  }

  /** A whole number of units covers the requirement exactly when it covers its scaled form. */
  lemma NeededAtMost(q: int, k: int, n: int, m: int)
    requires q > 0 && n > 0 && SpillageInRange(k)
    ensures Needed(q, k, n) <= m <==> ScaledTotal(q, k, n) <= m * SPILLAGE_SCALE
  {
    NeededScaledBounds(q, k, n);
  }

  lemma MulMonotone(a: int, b: int, c: int)
    requires a >= 0 && b >= c
    ensures a * b >= a * c
  {
    assert a * b - a * c == a * (b - c);
  }

  /** Division by a positive number: n <= x / d exactly when n * d <= x. */
  lemma FloorDivAtLeast(x: int, d: int, n: int)
    requires d > 0
    ensures n <= x / d <==> n * d <= x
  {
    var f, r := x / d, x % d;
    assert x == d * f + r && 0 <= r < d;
    if n <= f {
      assert n * d <= f * d by { MulMonotone(d, f, n); }
    } else {
      assert n >= f + 1;
      assert n * d >= (f + 1) * d by { MulMonotone(d, n, f + 1); }
    }
  }

  /**
   * An order of n units has enough stock on one BOM line exactly when n does
   * not exceed the production capacity that line allows: the order check
   * (ceiling) and the capacity calculator (floor) agree.
   */
  lemma NeededWithinStockIffWithinBound(inStock: int, q: int, k: int, n: int)
    requires inStock >= 0 && q > 0 && n > 0 && SpillageInRange(k)
    ensures Needed(q, k, n) <= inStock <==> n <= LineBound(inStock, q, k)
  {
    var perUnit := q * (SPILLAGE_SCALE + k);
    assert perUnit > 0 by { MulMonotone(q, SPILLAGE_SCALE + k, 1); }
    NeededAtMost(q, k, n, inStock);
    assert ScaledTotal(q, k, n) == n * perUnit;
    FloorDivAtLeast(inStock * SPILLAGE_SCALE, perUnit, n);
  }

  /**
   * The capacity of one line is the largest whole n with n * q * (1 + s) <= in_stock,
   * stated on the exact rationals.
   */
  lemma LineBoundIsFloor(inStock: int, q: int, k: int)
    requires inStock >= 0 && q > 0 && SpillageInRange(k)
    ensures LineBound(inStock, q, k) >= 0
    ensures LineBound(inStock, q, k) as real * QuantityWithSpillage(q, k) <= inStock as real
    ensures inStock as real < (LineBound(inStock, q, k) + 1) as real * QuantityWithSpillage(q, k)
  {
    var perUnit := q * (SPILLAGE_SCALE + k);
    assert perUnit > 0 by { MulMonotone(q, SPILLAGE_SCALE + k, 1); }
    var b := LineBound(inStock, q, k);
    FloorDivAtLeast(inStock * SPILLAGE_SCALE, perUnit, b);
    FloorDivAtLeast(inStock * SPILLAGE_SCALE, perUnit, b + 1);
    assert QuantityWithSpillage(q, k) == perUnit as real / 10000.0 by {
      assert (q * (10000 + k)) as real == q as real * (10000.0 + k as real);
    }
    assert (b * perUnit) as real == b as real * perUnit as real;
    assert ((b + 1) * perUnit) as real == (b + 1) as real * perUnit as real;
  }
}
