/** Products, quotients and powers of two, one step at a time. */
module Arithmetic {
  lemma OneMore(a: int, d: int)
    ensures (a + 1) * d == a * d + d
  {
  }

  lemma MoreIsMore(a: int, b: int, d: int)
    requires a <= b && 0 < d
    ensures a * d <= b * d
  {
  }

  lemma Quotient(c: int, d: int, q: int, r: int)
    requires 0 < d && 0 <= r < d && c == q * d + r
    ensures c / d == q
  {
    var e := c / d;
    assert c == e * d + c % d;
    if e < q {
      MoreIsMore(e + 1, q, d);
      OneMore(e, d);
    } else if e > q {
      MoreIsMore(q + 1, e, d);
      OneMore(q, d);
    }
  }

  lemma QuotientMonotone(a: int, b: int, d: int)
    requires a <= b && 0 < d
    ensures a / d <= b / d
  {
    if a / d > b / d {
      assert (b / d + 1) * d > b;
      MoreIsMore(b / d + 1, a / d, d);
    }
  }

  function Pow2(k: nat): (p: nat)
    ensures p > 0
  {
    if k == 0 then 1 else 2 * Pow2(k - 1)
  }

  lemma {:induction false} Pow2Grows(j: nat, k: nat)
    requires j <= k
    ensures Pow2(j) <= Pow2(k)
    ensures j < k ==> 2 * Pow2(j) <= Pow2(k)
  {
    if j < k {
      Pow2Grows(j, k - 1);
    }
  }

  lemma {:induction false} Pow2Sum(j: nat, k: nat)
    ensures Pow2(j + k) == Pow2(j) * Pow2(k)
  {
    if j > 0 {
      Pow2Sum(j - 1, k);
      assert Pow2(j + k) == 2 * Pow2(j - 1 + k);
      assert Pow2(j) == 2 * Pow2(j - 1);
      assert (2 * Pow2(j - 1)) * Pow2(k) == 2 * (Pow2(j - 1) * Pow2(k));
    }
  }
}
