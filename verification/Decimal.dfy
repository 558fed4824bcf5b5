/** Decimal numerals and the lexicographic order of text. */
module Decimal {
  import opened Arithmetic

  function Digit(d: nat): char
    requires d < 10
  {
    '0' + d as char
  }

  /** The numeral of n without leading zeros. */
  function Digits(n: nat): (s: string)
    ensures |s| >= 1
  {
    if n < 10 then [Digit(n)] else Digits(n / 10) + [Digit(n % 10)]
  }

  function Zeros(n: nat): (s: string)
    ensures |s| == n
  {
    if n == 0 then "" else Zeros(n - 1) + "0"
  }

  /** The formatter's zero padding to a least width: longer numerals are kept whole. */
  function Padded(n: nat, width: nat): string {
    if |Digits(n)| < width then Zeros(width - |Digits(n)|) + Digits(n) else Digits(n)
  }

  /** The last `width` digits of n. */
  function Fixed(n: nat, width: nat): (s: string)
    ensures |s| == width
  {
    if width == 0 then "" else Fixed(n / 10, width - 1) + [Digit(n % 10)]
  }

  function Pow10(n: nat): (p: nat)
    ensures p >= 1
  {
    if n == 0 then 1 else 10 * Pow10(n - 1)
  }

  lemma {:induction false} FixedZero(width: nat)
    ensures Fixed(0, width) == Zeros(width)
  {
    if width > 0 {
      FixedZero(width - 1);
    }
  }

  /** A numeral that fits its width is padded to exactly that width. */
  lemma {:induction false} PaddedIsFixed(n: nat, width: nat)
    requires width > 0 && n < Pow10(width)
    ensures Padded(n, width) == Fixed(n, width)
  {
    if n < 10 {
      assert n / 10 == 0;
      FixedZero(width - 1);
    } else if width > 1 {
      PaddedIsFixed(n / 10, width - 1);
    }
  }

  predicate LexLess(a: string, b: string) {
    if b == [] then false
    else if a == [] then true
    else if a[0] != b[0] then a[0] < b[0]
    else LexLess(a[1..], b[1..])
  }

  /** Equal-width prefixes decide, and equal ones pass the decision on. */
  lemma {:induction false} LexConcat(a: string, b: string, x: string, y: string)
    requires |a| == |b|
    ensures LexLess(a + x, b + y) <==> LexLess(a, b) || (a == b && LexLess(x, y))
    decreases |a|
  {
    if a == [] {
      assert a + x == x && b + y == y;
    } else {
      assert (a + x)[1..] == a[1..] + x && (b + y)[1..] == b[1..] + y;
      LexConcat(a[1..], b[1..], x, y);
      assert a == [a[0]] + a[1..] && b == [b[0]] + b[1..];
    }
  }

  lemma {:induction false} FixedOrder(m: nat, n: nat, width: nat)
    requires m < Pow10(width) && n < Pow10(width)
    ensures LexLess(Fixed(m, width), Fixed(n, width)) <==> m < n
    ensures Fixed(m, width) == Fixed(n, width) <==> m == n
  {
    if width > 0 {
      FixedOrder(m / 10, n / 10, width - 1);
      var p, q := Fixed(m / 10, width - 1), Fixed(n / 10, width - 1);
      LexConcat(p, q, [Digit(m % 10)], [Digit(n % 10)]);
      assert Fixed(m, width)[..width - 1] == p && Fixed(n, width)[..width - 1] == q;
      assert Fixed(m, width)[width - 1] == Digit(m % 10) && Fixed(n, width)[width - 1] == Digit(n % 10);
    }
  }
}
