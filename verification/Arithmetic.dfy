/** Facts about indices, quotients and set sizes that the bounds need. */
module Arithmetic {

  predicate AllBelow(s: seq<nat>, n: nat) {
    forall i :: 0 <= i < |s| ==> s[i] < n
  }

  lemma ProductMonotone(a: int, b: int, d: int)
    requires a <= b && d >= 0
    ensures a * d <= b * d
  {
  }

  lemma OneMoreTimes(q: int, d: int)
    ensures (q + 1) * d == q * d + d
  {
  }

  lemma QuotientAtLeast(x: int, q: int, d: int)
    requires d > 0 && x >= q * d
    ensures x / d >= q
  {
    var p := x / d;
    assert x == p * d + x % d;
    assert (p + 1) * d == p * d + d;
    if p + 1 <= q {
      ProductMonotone(p + 1, q, d);
    }
  }

  lemma WholeQuotient(q: int, d: int)
    requires d > 0
    ensures (q * d) / d == q
  {
    var r := (q * d) / d;
    assert q * d == r * d + (q * d) % d;
    if r > q {
      ProductMonotone(q + 1, r, d);
    } else if r < q {
      ProductMonotone(r + 1, q, d);
    }
  }

  lemma {:induction false} SubsetCard<T>(a: set<T>, b: set<T>)
    requires a <= b
    ensures |a| <= |b|
  {
    if a != {} {
      var x :| x in a;
      SubsetCard(a - {x}, b - {x});
    }
  }

  lemma UnionCard<T>(a: set<T>, b: set<T>)
    ensures |a + b| <= |a| + |b|
  {
    assert a + b == a + (b - a);
    SubsetCard(b - a, b);
  }
}
