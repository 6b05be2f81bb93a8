/** Facts about products and integer division that the solver is slow to find. */
module Arithmetic {
  lemma DivMod(n: int, d: int)
    requires d >= 1
    ensures n == d * (n / d) + n % d && 0 <= n % d < d
  {
  }

  lemma DivModUnique(n: int, d: int, q: int, r: int)
    requires d >= 1 && 0 <= r < d && n == d * q + r
    ensures n / d == q && n % d == r
  {
    var e := n / d - q;
    assert d * e == r - n % d by { assert d * e == d * (n / d) - d * q; }
    assert e == 0 by {
      assert e >= 1 ==> d * e >= d;
      assert e <= -1 ==> d * e <= -d;
    }
  }

  lemma DivStep(n: int, d: int)
    requires d >= 2
    ensures n / d == (n - 1) / d + (if n % d == 0 then 1 else 0)
  {
    var q, r := (n - 1) / d, (n - 1) % d;
    assert n - 1 == d * q + r;
    if r == d - 1 {
      assert d * (q + 1) == d * q + d;
      DivModUnique(n, d, q + 1, 0);
    } else {
      DivModUnique(n, d, q, r + 1);
    }
  }

  lemma CancelFactor(d: int, x: int, y: int)
    requires d >= 1
    ensures d * x < d * y + d ==> x <= y
    ensures d * x <= d * y ==> x <= y
  {
    if x >= y + 1 {
      assert d * x >= d * (y + 1) == d * y + d;
    }
  }

  lemma Distribute(d: int, x: int, y: int)
    ensures d * (x + y) == d * x + d * y && d * (x - y) == d * x - d * y
  {
  }

  lemma MulMonotone(a: int, b: int, c: int)
    requires a <= b && c >= 0
    ensures a * c <= b * c
  {
  }
}
