/** Sums of a real-valued measure over a sequence. */
module Sums {
  function Sum<T>(f: T -> real, xs: seq<T>): real {
    if xs == [] then 0.0 else Sum(f, xs[..|xs| - 1]) + f(xs[|xs| - 1])
  }

  lemma SumSnoc<T>(f: T -> real, xs: seq<T>, x: T)
    ensures Sum(f, xs + [x]) == Sum(f, xs) + f(x)
  {
    assert (xs + [x])[..|xs|] == xs;
  }

  lemma SumPrefix<T>(f: T -> real, xs: seq<T>, i: nat)
    requires i < |xs|
    ensures Sum(f, xs[..i + 1]) == Sum(f, xs[..i]) + f(xs[i])
  {
    assert xs[..i + 1] == xs[..i] + [xs[i]];
    SumSnoc(f, xs[..i], xs[i]);
  }

  lemma {:induction false} SumConcat<T>(f: T -> real, xs: seq<T>, ys: seq<T>)
    ensures Sum(f, xs + ys) == Sum(f, xs) + Sum(f, ys)
  {
    if ys == [] {
      assert xs + ys == xs;
    } else {
      var m := |ys| - 1;
      assert xs + ys == (xs + ys[..m]) + [ys[m]];
      SumSnoc(f, xs + ys[..m], ys[m]);
      SumConcat(f, xs, ys[..m]);
    }
  }

  lemma SumRemove<T>(f: T -> real, xs: seq<T>, i: nat)
    requires i < |xs|
    ensures Sum(f, xs) == Sum(f, xs[..i] + xs[i + 1..]) + f(xs[i])
  {
    SumConcat(f, xs[..i], xs[i + 1..]);
    assert xs == xs[..i + 1] + xs[i + 1..];
    SumConcat(f, xs[..i + 1], xs[i + 1..]);
    SumPrefix(f, xs, i);
  }

  /** A sum does not depend on the order of its terms. */
  lemma {:induction false} SumPermutation<T>(f: T -> real, xs: seq<T>, ys: seq<T>)
    requires multiset(xs) == multiset(ys)
    ensures Sum(f, xs) == Sum(f, ys)
  {
    if xs == [] {
      assert |multiset(ys)| == |ys| == 0;
    } else {
      var m := |xs| - 1;
      assert xs == xs[..m] + [xs[m]];
      assert xs[m] in multiset(ys);
      var i :| 0 <= i < |ys| && ys[i] == xs[m];
      assert ys == ys[..i] + [ys[i]] + ys[i + 1..];
      assert multiset(xs[..m]) == multiset(xs) - multiset{xs[m]};
      assert multiset(ys[..i] + ys[i + 1..]) == multiset(ys) - multiset{xs[m]};
      SumPermutation(f, xs[..m], ys[..i] + ys[i + 1..]);
      SumRemove(f, ys, i);
    }
  }

  lemma {:induction false} SumOfUnits<T>(f: T -> real, xs: seq<T>)
    requires forall x | x in xs :: 0.0 <= f(x) <= 1.0
    ensures 0.0 <= Sum(f, xs) <= |xs| as real
  {
    if xs != [] {
      var m := |xs| - 1;
      SumOfUnits(f, xs[..m]);
      assert xs[m] in xs;
    }
  }

  lemma {:induction false} SumOfZeros<T>(f: T -> real, xs: seq<T>)
    requires forall x | x in xs :: f(x) == 0.0
    ensures Sum(f, xs) == 0.0
  {
    if xs != [] {
      var m := |xs| - 1;
      SumOfZeros(f, xs[..m]);
      assert xs[m] in xs;
    }
  }

  /** c f + d g = h term by term, so also in the sum. */
  lemma {:induction false} SumLinear<T>(f: T -> real, g: T -> real, h: T -> real, c: real, d: real, xs: seq<T>)
    requires forall x | x in xs :: h(x) == c * f(x) + d * g(x)
    ensures Sum(h, xs) == c * Sum(f, xs) + d * Sum(g, xs)
  {
    if xs != [] {
      var m := |xs| - 1;
      SumLinear(f, g, h, c, d, xs[..m]);
      assert xs[m] in xs;
    }
  }

  lemma {:induction false} SumBoundsBelow<T>(f: T -> real, xs: seq<T>)
    requires forall x | x in xs :: f(x) >= 0.0
    ensures Sum(f, xs) >= 0.0
  {
    if xs != [] {
      SumBoundsBelow(f, xs[..|xs| - 1]);
    }
  }

  /** Powers of a real. */
  function Pow(x: real, n: nat): real {
    if n == 0 then 1.0 else x * Pow(x, n - 1)
  }

  lemma {:induction false} PowAdd(x: real, m: nat, n: nat)
    ensures Pow(x, m + n) == Pow(x, m) * Pow(x, n)
  {
    if m > 0 {
      PowAdd(x, m - 1, n);
      assert Pow(x, m + n) == x * Pow(x, m - 1 + n);
      assert x * (Pow(x, m - 1) * Pow(x, n)) == (x * Pow(x, m - 1)) * Pow(x, n);
    }
  }

  lemma {:induction false} PowInUnit(x: real, n: nat)
    requires 0.0 < x <= 1.0
    ensures 0.0 < Pow(x, n) <= 1.0
  {
    if n > 0 {
      PowInUnit(x, n - 1);
      assert x * Pow(x, n - 1) <= 1.0 * Pow(x, n - 1);
    }
  }
}
