/** Python's round() and Decimal.quantize(): to the nearest integer, ties to the even one. */
module Rounding {
  import opened Arithmetic

  /** n / d rounded half to even. */
  function RoundHalfEven(n: int, d: int): int
    requires d >= 1
  {
    var q, r := n / d, n % d;
    if 2 * r < d then q else if 2 * r > d then q + 1 else if q % 2 == 0 then q else q + 1
  }

  /** n / d rounded half up, as ROUND_HALF_UP does for amounts that are not negative. */
  function RoundHalfUp(n: int, d: int): int
    requires d >= 1
  {
    var q, r := n / d, n % d;
    if 2 * r < d then q else q + 1
  }

  /** The rounded value is within half a unit. */
  lemma RoundError(n: int, d: int)
    requires d >= 1
    ensures -d <= 2 * (d * RoundHalfEven(n, d) - n) <= d
  {
  }

  lemma RoundMonotone(n: int, m: int, d: int)
    requires d >= 1 && n <= m
    ensures RoundHalfEven(n, d) <= RoundHalfEven(m, d)
  {
    DivMod(n, d);
    DivMod(m, d);
    CancelFactor(d, n / d, m / d);
    if n / d == m / d {
      assert n % d <= m % d;
    }
  }

  /** Values more than one unit apart round to different integers, even at ties. */
  lemma RoundSeparates(n: int, m: int, d: int)
    requires d >= 1 && m - n > d
    ensures RoundHalfEven(n, d) < RoundHalfEven(m, d)
  {
    hide RoundHalfEven;
    RoundError(n, d);
    RoundError(m, d);
    var a, b := RoundHalfEven(n, d), RoundHalfEven(m, d);
    if b <= a {
      MulMonotone(b, a, d);
    }
  }

  lemma RoundMultiple(k: int, d: int)
    requires d >= 1
    ensures RoundHalfEven(d * k, d) == k
  {
  }

  /** d * x - n by how far x is above the quotient. */
  lemma DistanceFrom(n: int, d: int, x: int)
    requires d >= 1
    ensures var e, t := x - n / d, d * x - n;
      && (e == 0 ==> t == -(n % d)) && (e == 1 ==> t == d - n % d)
      && (e >= 2 ==> t > d) && (e <= -1 ==> t <= -d)
  {
  }

  /** It is the nearest integer, and the even one of two equally near. */
  lemma RoundCharacterised(n: int, d: int, x: int)
    requires d >= 1
    ensures x == RoundHalfEven(n, d) <==>
      var t := 2 * (d * x - n); -d < t < d || ((t == d || t == -d) && x % 2 == 0)
  {
    DistanceFrom(n, d, x);
    DivMod(n, d);
    var t, q, r := d * x - n, n / d, n % d;
    assert x == q || x == q + 1 || x >= q + 2 || x <= q - 1;
  }

  /** Half to even and half up differ exactly on ties just above an even integer. */
  lemma RoundingsDifferExactly(n: int, d: int)
    requires d >= 1
    ensures RoundHalfEven(n, d) != RoundHalfUp(n, d) <==> 2 * (n % d) == d && n / d % 2 == 0
    ensures RoundHalfEven(n, d) != RoundHalfUp(n, d) ==> RoundHalfEven(n, d) == RoundHalfUp(n, d) - 1
  {
  }
}
