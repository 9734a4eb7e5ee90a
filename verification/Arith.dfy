/** Facts about division, counting and concatenation that several files rely on. */
module Arith {
  lemma {:induction false} MulMonotone(a: int, b: int, c: nat)
    requires a <= b
    ensures a * c <= b * c
    decreases b - a
  {
    if a < b {
      MulMonotone(a + 1, b, c);
      assert (a + 1) * c == a * c + c;
    }
  }

  /** Quotient and remainder are unique. */
  lemma DivModUnique(x: int, q: int, r: int, cap: nat)
    requires cap > 0 && x == q * cap + r && 0 <= r < cap
    ensures x % cap == r && x / cap == q
  {
    var p := x / cap;
    assert x == p * cap + x % cap;
    assert (p + 1) * cap == p * cap + cap && (q + 1) * cap == q * cap + cap;
    if p < q {
      MulMonotone(p + 1, q, cap);
    } else if q < p {
      MulMonotone(q + 1, p, cap);
    }
  }

  lemma SubsetSize<T>(a: set<T>, b: set<T>)
    requires a <= b
    ensures |a| <= |b|
  {
    assert b == a + (b - a);
  }

  lemma Assoc<T>(a: seq<T>, b: seq<T>, c: seq<T>)
    ensures (a + b) + c == a + (b + c)
  {
  }

  lemma Regroup<T>(a: seq<T>, b: seq<T>, c: seq<T>, d: seq<T>)
    ensures a + b + c + d == a + (b + c + d)
  {
  }
}
