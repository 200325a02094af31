/** Products and quotients of reals, one step at a time. Proofs elsewhere hide Times, so
    that they see products only through these facts. */
module Reals {
  predicate InUnit(x: real) {
    0.0 <= x <= 1.0
  }

  function Times(x: real, y: real): real {
    x * y
  }

  lemma MulNonNegative(x: real, y: real)
    requires x >= 0.0 && y >= 0.0
    ensures x * y >= 0.0
  {
  }

  lemma MulPositive(x: real, y: real)
    requires x > 0.0 && y > 0.0
    ensures x * y > 0.0
  {
  }

  lemma MulMonotone(x: real, y: real, k: real)
    requires x <= y && k >= 0.0
    ensures x * k <= y * k
  {
    MulNonNegative(y - x, k);
    assert (y - x) * k == y * k - x * k;
  }

  lemma MulInUnit(x: real, y: real)
    requires 0.0 <= x && 0.0 <= y <= 1.0
    ensures 0.0 <= x * y <= x
  {
    MulNonNegative(x, y);
    MulMonotone(y, 1.0, x);
  }

  lemma TimesInUnit(x: real, y: real)
    requires 0.0 <= x && 0.0 <= y <= 1.0
    ensures 0.0 <= Times(x, y) <= x
  {
    MulInUnit(x, y);
  }

  lemma TimesCommutes(x: real, y: real)
    ensures Times(x, y) == Times(y, x)
  {
  }

  lemma TimesAssociates(x: real, y: real, z: real)
    ensures Times(Times(x, y), z) == Times(x, Times(y, z))
  {
  }

  lemma TimesDistributes(x: real, y: real, k: real)
    ensures Times(y + x, k) == Times(y, k) + Times(x, k)
    ensures Times(y - x, k) == Times(y, k) - Times(x, k)
  {
  }

  lemma TimesMonotone(x: real, y: real, k: real)
    requires x <= y && k >= 0.0
    ensures Times(x, k) <= Times(y, k)
  {
    MulMonotone(x, y, k);
  }

  lemma TimesStrict(x: real, y: real, k: real)
    requires x < y && k > 0.0
    ensures Times(x, k) < Times(y, k)
  {
    MulPositive(y - x, k);
    assert (y - x) * k == y * k - x * k;
  }

  lemma QuotientTimes(x: real, m: real)
    requires m != 0.0
    ensures Times(x / m, m) == x
    ensures x == m ==> x / m == 1.0
  {
  }

  lemma QuotientAtLeast(x: real, m: real, t: real)
    requires m > 0.0
    ensures x / m >= t <==> x >= t * m
  {
    var q := x / m;
    assert q * m == x;
    if q >= t {
      MulMonotone(t, q, m);
    } else {
      MulPositive(t - q, m);
      assert (t - q) * m == t * m - q * m;
    }
  }

  lemma QuotientAtMost(x: real, m: real, t: real)
    requires m > 0.0
    ensures x / m <= t <==> x <= t * m
  {
    var q := x / m;
    assert q * m == x;
    if q <= t {
      MulMonotone(q, t, m);
    } else {
      MulPositive(q - t, m);
      assert (q - t) * m == q * m - t * m;
    }
  }
}
