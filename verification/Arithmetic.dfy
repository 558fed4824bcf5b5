/** Multiplication, flooring division and powers of two. */
module Arithmetic {

  lemma MulMonotone(a: int, b: int, d: int)
    requires a <= b && d >= 0
    ensures a * d <= b * d
  {
  }

  lemma QuotientBound(a: nat, d: int)
    requires d > 0
    ensures 0 <= a / d <= a
  {
    var q := a / d;
    assert q * d <= a < q * d + d;
    if q < 0 {
      MulMonotone(q, -1, d);
    } else {
      MulMonotone(1, d, q);
    }
  }

  lemma QuotientUnique(n: int, d: int, q: int)
    requires d > 0 && q * d <= n < q * d + d
    ensures n / d == q
  {
    var e := n / d;
    assert e * d <= n < e * d + d;
    if e < q {
      MulMonotone(e + 1, q, d);
    } else if q < e {
      MulMonotone(q + 1, e, d);
    }
  }

  /**
   The product as repeated addition. A definition that multiplies unknowns this
   way stays symbolic for the solver; ProductIs gives its value.
   */
  function Product(a: nat, b: nat): nat {
    if a == 0 then 0 else Product(a - 1, b) + b
  }

  lemma {:induction false} ProductIs(a: nat, b: nat)
    ensures Product(a, b) == a * b
    decreases a
  {
    if a > 0 {
      ProductIs(a - 1, b);
    }
  }

  lemma ProductMonotone(a: nat, b: nat, c: nat, d: nat)
    requires a <= c && b <= d
    ensures Product(a, b) <= Product(c, d)
  {
    ProductIs(a, b);
    ProductIs(c, d);
    MulMonotone(a, c, b);
    MulMonotone(b, d, c);
  }

  function Pow2(n: nat): (p: nat)
    ensures p >= 1
  {
    if n == 0 then 1 else 2 * Pow2(n - 1)
  }

  lemma {:induction false} Pow2Add(a: nat, b: nat)
    ensures Pow2(a + b) == Pow2(a) * Pow2(b)
    decreases a
  {
    if a > 0 {
      Pow2Add(a - 1, b);
    }
  }

  lemma Pow2Grows(a: nat, b: nat)
    requires a <= b
    ensures Pow2(a) <= Pow2(b)
  {
    Pow2Add(a, b - a);
    assert Pow2(a) * 1 <= Pow2(a) * Pow2(b - a);
  }

  /** Flooring division is monotone, and at whole multiples exact. */
  lemma DivBounds(n: int, d: int, k: int)
    requires d > 0
    ensures n >= k * d ==> n / d >= k
    ensures n <= k * d ==> n / d <= k
  {
    var e := n / d;
    assert e * d <= n < e * d + d;
    if e < k {
      MulMonotone(e + 1, k, d);
    } else if e > k {
      MulMonotone(k + 1, e, d);
    }
  }
}
