/**
 * `Math.round(p / q)` and `Math.round(p / q * 100)` over exact integers.
 * `Math.round(x)` is `floor(x + 1/2)`: halves round upwards, also for negative x.
 * Floating-point artefacts of the source's division are not modelled.
 */
module Rounding {

  /** Math.round(p / q): the integer nearest to p / q, halves rounding up. */
  function RoundDiv(p: int, q: int): (r: int)
    requires q > 0
    ensures 2 * q * r <= 2 * p + q < 2 * q * r + 2 * q
  {
    var d := 2 * q;
    var n := 2 * p + q;
    assert n == d * (n / d) + n % d;
    n / d
  }

  /** Multiplying by a non-negative factor keeps an order. */
  lemma MulMono(k: int, a: int, b: int)
    requires k >= 0 && a <= b
    ensures k * a <= k * b
  {
    assert k * b - k * a == k * (b - a);
  }

  /** From d * a <= n < d * b + d it follows that a <= b. */
  lemma LeFromBounds(d: int, a: int, b: int, n: int)
    requires d > 0 && d * a <= n < d * b + d
    ensures a <= b
  {
    if a > b {
      assert d * (b + 1) == d * b + d;
      MulMono(d, b + 1, a);
    }
  }

  /** The bounds in RoundDiv's contract determine its result. */
  lemma RoundDivUnique(p: int, q: int, r: int)
    requires q > 0
    requires 2 * q * r <= 2 * p + q < 2 * q * r + 2 * q
    ensures r == RoundDiv(p, q)
  {
    var s := RoundDiv(p, q);
    LeFromBounds(2 * q, r, s, 2 * p + q);
    LeFromBounds(2 * q, s, r, 2 * p + q);
  }

  /** Math.round(part / whole * 100): a whole-number percentage. */
  function Percent(part: int, whole: int): (r: int)
    requires whole > 0
  {
    RoundDiv(100 * part, whole)
  }

  /** If p / q lies in [lo, hi], so does its rounding. */
  lemma RoundDivBetween(p: int, q: int, lo: int, hi: int)
    requires q > 0 && lo <= hi
    requires q * lo <= p <= q * hi
    ensures lo <= RoundDiv(p, q) <= hi
  {
    var r := RoundDiv(p, q);
    var d, n := 2 * q, 2 * p + q;
    assert d * lo == 2 * (q * lo);
    assert d * hi == 2 * (q * hi);
    LeFromBounds(d, lo, r, n);
    LeFromBounds(d, r, hi, n);
  }

  /** A part between nothing and the whole gives a percentage in 0..100. */
  lemma PercentRange(part: int, whole: int)
    requires whole > 0 && 0 <= part <= whole
    ensures 0 <= Percent(part, whole) <= 100
  {
    MulMono(100, part, whole);
    RoundDivBetween(100 * part, whole, 0, 100);
  }

  lemma PercentOfWhole(whole: int)
    requires whole > 0
    ensures Percent(whole, whole) == 100
  {
    RoundDivUnique(100 * whole, whole, 100);
  }

  lemma PercentOfNothing(whole: int)
    requires whole > 0
    ensures Percent(0, whole) == 0
  {
    RoundDivUnique(0, whole, 0);
  }

  /** The percentage reaches 100 exactly when part / whole >= 0.995. */
  lemma PercentReachesFull(part: int, whole: int)
    requires whole > 0
    ensures Percent(part, whole) >= 100 <==> 200 * part >= 199 * whole
  {
    var r := Percent(part, whole);
    var d, n := 2 * whole, 200 * part + whole;
    if 200 * part >= 199 * whole {
      LeFromBounds(d, 100, r, n);
    }
    if r >= 100 {
      MulMono(d, 100, r);
    }
  }

  /** A larger part never gives a smaller percentage. */
  lemma PercentMonotone(a: int, b: int, whole: int)
    requires whole > 0 && a <= b
    ensures Percent(a, whole) <= Percent(b, whole)
  {
    LeFromBounds(2 * whole, Percent(a, whole), Percent(b, whole), 200 * b + whole);
  }
}
