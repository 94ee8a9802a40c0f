/** Integer stand-ins for the floating-point arithmetic the pages display:
    `Math.round(p / q)` and the percentages built on it. */
module Arith {
  /** `Math.round(p / q)` for a positive q: the integer nearest to p / q,
      halves rounded up. */
  function RoundDiv(p: int, q: int): (r: int)
    requires q > 0
    ensures 2 * r * q <= 2 * p + q < 2 * (r + 1) * q
  {
    var r := (2 * p + q) / (2 * q);
    assert r * (2 * q) <= 2 * p + q < (r + 1) * (2 * q);
    r
  }

  /** Rounding a quotient that lies in [0, k] gives a result in [0, k]. */
  lemma {:induction false} RoundDivBounds(p: int, q: int, k: int)
    requires q > 0 && 0 <= p <= k * q
    ensures 0 <= RoundDiv(p, q) <= k
  {
    var r := RoundDiv(p, q);
    assert (r + 1) * (2 * q) > 0;
    FactorLess(0, r + 1, 2 * q);
    assert r * (2 * q) < (k + 1) * (2 * q);
    FactorLess(r, k + 1, 2 * q);
  }

  /** Multiplying by a positive number keeps a strict order, so the order
      of the products is that of the factors. */
  lemma FactorLess(a: int, b: int, c: int)
    requires c > 0 && a * c < b * c
    ensures a < b
  {
  }

  /** `Math.round((part / whole) * 100)`, or 0 when the whole is empty. */
  function Percent(part: nat, whole: nat): (r: int)
    requires part <= whole
    ensures 0 <= r <= 100
    ensures whole == 0 ==> r == 0
    ensures whole > 0 ==> 2 * r * whole <= 200 * part + whole < 2 * (r + 1) * whole
  {
    if whole > 0 then
      RoundDivBounds(100 * part, whole, 100);
      RoundDiv(100 * part, whole)
    else 0
  }
}
