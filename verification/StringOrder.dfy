/** The order in which an ordered key-value store, or a sorted map, visits its keys. */
module StringOrder {
  /** Strict lexicographic order, character by character; a proper prefix comes first. */
  predicate Less(a: string, b: string) {
    if b == [] then false
    else if a == [] then true
    else if a[0] != b[0] then a[0] < b[0]
    else Less(a[1..], b[1..])
  }

  predicate AtMost(a: string, b: string) {
    a == b || Less(a, b)
  }

  lemma {:induction false} Irreflexive(a: string)
    ensures !Less(a, a)
  {
    if a != [] {
      Irreflexive(a[1..]);
    }
  }

  lemma {:induction false} Transitive(a: string, b: string, c: string)
    requires Less(a, b) && Less(b, c)
    ensures Less(a, c)
  {
    if a != [] && a[0] == b[0] == c[0] {
      Transitive(a[1..], b[1..], c[1..]);
    }
  }

  lemma {:induction false} Trichotomy(a: string, b: string)
    ensures a == b || Less(a, b) || Less(b, a)
    ensures !(Less(a, b) && Less(b, a))
  {
    if a != [] && b != [] && a[0] == b[0] {
      Trichotomy(a[1..], b[1..]);
      if a[1..] == b[1..] {
        assert a == [a[0]] + a[1..] == [b[0]] + b[1..] == b;
      }
    }
  }

  /** A common prefix does not affect the order. */
  lemma {:induction false} CommonPrefix(p: string, a: string, b: string)
    ensures Less(p + a, p + b) <==> Less(a, b)
  {
    if p == [] {
      assert p + a == a && p + b == b;
    } else {
      assert (p + a)[1..] == p[1..] + a && (p + b)[1..] == p[1..] + b;
      CommonPrefix(p[1..], a, b);
    }
  }

  /** Strings of one length that differ decide the order of whatever follows them. */
  lemma {:induction false} FixedWidth(p: string, q: string, a: string, b: string)
    requires |p| == |q| && p != q
    ensures Less(p + a, q + b) <==> Less(p, q)
  {
    assert p == [p[0]] + p[1..] && q == [q[0]] + q[1..];
    assert (p + a)[1..] == p[1..] + a && (q + b)[1..] == q[1..] + b;
    if p[0] == q[0] {
      FixedWidth(p[1..], q[1..], a, b);
    }
  }

  /** Everything between a prefix and a string that has it has it too. */
  lemma {:induction false} PrefixIsConvex(p: string, y: string, x: string)
    requires p <= x && !Less(y, p) && Less(y, x)
    ensures p <= y
  {
    if p != [] {
      assert y != [] && y[0] == p[0] == x[0];
      PrefixIsConvex(p[1..], y[1..], x[1..]);
      assert p == [p[0]] + p[1..] && y == [y[0]] + y[1..];
    }
  }

  lemma {:induction false} PrefixIsAtMost(p: string, x: string)
    requires p <= x
    ensures !Less(x, p)
  {
    if p != [] {
      PrefixIsAtMost(p[1..], x[1..]);
    }
  }

  // ----- least elements and sorted sequences -----

  predicate IsLeast(m: string, s: set<string>) {
    m in s && forall x | x in s :: AtMost(m, x)
  }

  lemma {:induction false} LeastExists(s: set<string>)
    requires s != {}
    ensures exists m :: IsLeast(m, s)
  {
    var x :| x in s;
    if s == {x} {
      assert IsLeast(x, s);
    } else {
      var rest := s - {x};
      LeastExists(rest);
      var m :| IsLeast(m, rest);
      Trichotomy(m, x);
      forall y | y in s && Less(x, m) ensures AtMost(x, y) {
        if y in rest && y != m {
          Transitive(x, m, y);
        }
      }
      assert IsLeast(if Less(x, m) then x else m, s);
    }
  }

  lemma LeastIsUnique(m: string, n: string, s: set<string>)
    requires IsLeast(m, s) && IsLeast(n, s)
    ensures m == n
  {
    Trichotomy(m, n);
  }

  function Least(s: set<string>): (m: string)
    requires s != {}
    ensures IsLeast(m, s)
  {
    LeastExists(s);
    assert forall m, n | IsLeast(m, s) && IsLeast(n, s) :: m == n by {
      forall m, n | IsLeast(m, s) && IsLeast(n, s) ensures m == n {
        LeastIsUnique(m, n, s);
      }
    }
    var m :| m in s && IsLeast(m, s);
    m
  }

  /** Strictly increasing, so without repeats. */
  ghost predicate Ascending(xs: seq<string>) {
    forall i, j | 0 <= i < j < |xs| :: Less(xs[i], xs[j])
  }

  /** The elements of a set in increasing order. */
  function Sorted(s: set<string>): (xs: seq<string>)
    ensures forall x :: x in xs <==> x in s
    ensures Ascending(xs)
  {
    if s == {} then
      []
    else
      var rest := Sorted(s - {Least(s)});
      assert forall i | 0 <= i < |rest| :: rest[i] in s - {Least(s)};
      [Least(s)] + rest
  }

  /** An ascending sequence is determined by its elements. */
  lemma {:induction false} AscendingIsSorted(xs: seq<string>, s: set<string>)
    requires Ascending(xs) && forall x :: x in xs <==> x in s
    ensures xs == Sorted(s)
  {
    if xs == [] {
      assert s == {};
    } else {
      var rest := xs[1..];
      assert xs[0] in s;
      forall x | x in rest ensures x != xs[0] && x in s {
        Irreflexive(xs[0]);
        assert x in xs;
      }
      forall x | x in s && x != xs[0] ensures x in rest {
        var i :| 0 <= i < |xs| && xs[i] == x;
        assert rest[i - 1] == x;
      }
      assert IsLeast(xs[0], s) by {
        forall x | x in s ensures AtMost(xs[0], x) {
          var i :| 0 <= i < |xs| && xs[i] == x;
        }
      }
      LeastIsUnique(xs[0], Least(s), s);
      AscendingIsSorted(rest, s - {xs[0]});
      assert xs == [xs[0]] + rest;
    }
  }
}
