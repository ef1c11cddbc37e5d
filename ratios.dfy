/** The percentages the progress bars are drawn from. */
module Ratios {

  /** A part over a positive whole lies between 0 and 1. */
  lemma RatioBounds(c: real, n: real)
    requires 0.0 <= c <= n && n > 0.0
    ensures 0.0 <= c / n <= 1.0
    ensures (c / n) * n == c
  {
    var q := c / n;
    assert q * n == c;
  }

  /** `whole === 0 ? 0 : (part / whole) * 100`, as an exact ratio. */
  function Percent(part: nat, whole: nat): (p: real)
    requires part <= whole
    ensures 0.0 <= p <= 100.0
    ensures whole == 0 ==> p == 0.0
    ensures whole > 0 ==> p * whole as real == 100.0 * part as real
  {
    if whole == 0 then 0.0
    else
      RatioBounds(part as real, whole as real);
      (part as real / whole as real) * 100.0
  }

  /** The bar is full exactly when every part is done. */
  lemma PercentFull(part: nat, whole: nat)
    requires part <= whole && whole > 0
    ensures Percent(part, whole) == 100.0 <==> part == whole
  {
    var p := Percent(part, whole);
    assert p * whole as real == 100.0 * part as real;
  }

  /** The bar is empty exactly when no part is done. */
  lemma PercentEmpty(part: nat, whole: nat)
    requires part <= whole && whole > 0
    ensures Percent(part, whole) == 0.0 <==> part == 0
  {
    var p := Percent(part, whole);
    assert p * whole as real == 100.0 * part as real;
  }
}
