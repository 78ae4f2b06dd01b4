/** Laws of real multiplication, stated so that longer proofs need no nonlinear arithmetic. */
module Reals {
  /** The product, as a function: proofs by induction hide its body and use only the laws below. */
  function Times(x: real, y: real): real {
    x * y
  }

  lemma TimesAdds(x: real, a: real, b: real)
    ensures Times(x, a + b) == Times(x, a) + Times(x, b)
    ensures Times(a + b, x) == Times(a, x) + Times(b, x)
  {
  }

  lemma TimesGrows(x: real, y: real)
    requires 0.0 <= x <= y
    ensures Times(x, x) <= Times(y, y)
    ensures x < y ==> Times(x, x) < Times(y, y)
  {
    if x < y {
      TimesPositive(y - x, y + x);
      assert (y - x) * (y + x) == y * y - x * x;
    }
  }

  lemma TimesPositive(x: real, y: real)
    requires x > 0.0 && y > 0.0
    ensures Times(x, y) > 0.0
  {
  }

  lemma Unscale(d: real, unit: real, z: real)
    requires unit > 0.0 && z == d / unit
    ensures Times(unit, z) == d && Times(Times(unit, unit), Times(z, z)) == Times(d, d)
  {
    assert unit * z == d;
    assert (unit * unit) * (z * z) == (unit * z) * (unit * z);
  }

  lemma TimesUnits(x: real, y: real)
    ensures Times(x, 0.0) == 0.0 && Times(0.0, y) == 0.0 && Times(1.0, y) == y
  {
  }

  lemma TimesCommutes(x: real, y: real)
    ensures Times(x, y) == Times(y, x)
  {
  }

  lemma Cancel(x: real, a: real, b: real)
    requires x > 0.0 && Times(x, a) == Times(x, b)
    ensures a == b
  {
    assert Times(x, a) / x == a && Times(x, b) / x == b;
  }

  lemma TimesSwap(x: real, y: real, z: real)
    ensures Times(Times(x, y), z) == Times(Times(x, z), y)
  {
    assert x * y * z == x * z * y;
  }

  /** Products of fractions are fractions, and no larger than either. */
  lemma TimesOfFractions(x: real, y: real)
    requires 0.0 <= x <= 1.0 && 0.0 <= y <= 1.0
    ensures 0.0 <= Times(x, y) <= x && Times(x, y) <= y
  {
    NonNegative(x, 1.0 - y);
    NonNegative(y, 1.0 - x);
    NonNegative(x, y);
  }

  lemma NonNegative(x: real, y: real)
    requires x >= 0.0 && y >= 0.0
    ensures x * y >= 0.0
  {
  }
}
