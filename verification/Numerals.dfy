/** Decimal numerals as the scripts and the database print and parse them.

    Two paddings differ past their width: Python's f"{n:03d}" grows, while PostgreSQL's
    lpad(n::text, 3, '0') keeps only the first characters. */
module Numerals {

  predicate IsDigit(c: char) {
    '0' <= c <= '9'
  }

  predicate AllDigits(s: string) {
    forall i :: 0 <= i < |s| ==> IsDigit(s[i])
  }

  function DigitChar(d: nat): (c: char)
    requires d < 10
    ensures IsDigit(c) && c as int - '0' as int == d
  {
    "0123456789"[d]
  }

  function DigitValue(c: char): nat
    requires IsDigit(c)
  {
    c as int - '0' as int
  }

  /** str(n), and n::text. */
  function Digits(n: nat): (s: string)
    ensures |s| >= 1 && AllDigits(s)
  {
    if n < 10 then [DigitChar(n)] else Digits(n / 10) + [DigitChar(n % 10)]
  }

  /** int(s), and s::bigint. */
  function Value(s: string): nat
    requires AllDigits(s)
  {
    if s == [] then 0 else 10 * Value(s[..|s| - 1]) + DigitValue(s[|s| - 1])
  }

  function Zeros(k: nat): (s: string)
    ensures |s| == k && AllDigits(s)
    ensures forall i :: 0 <= i < k ==> s[i] == '0'
  {
    seq(k, i => '0')
  }

  /** f"{n:0wd}": at least w digits, more when n needs them. */
  function PadGrow(n: nat, w: nat): (s: string)
    ensures AllDigits(s) && |s| >= 1 && |s| >= w
  {
    var d := Digits(n);
    if |d| < w then Zeros(w - |d|) + d else d
  }

  /** lpad(n::text, w, '0'): exactly w characters, the first w when n has more. */
  function PadLpad(n: nat, w: nat): (s: string)
    ensures AllDigits(s) && |s| == w
  {
    var d := Digits(n);
    if |d| <= w then Zeros(w - |d|) + d else d[..w]
  }

  function Pow10(w: nat): (p: nat)
    ensures p >= 1
  {
    if w == 0 then 1 else 10 * Pow10(w - 1)
  }

  // ---- Parsing undoes printing ----

  lemma {:induction false} ValueOfDigits(n: nat)
    ensures Value(Digits(n)) == n
  {
    if n >= 10 {
      ValueOfDigits(n / 10);
      assert Digits(n)[..|Digits(n)| - 1] == Digits(n / 10);
    }
  }

  lemma {:induction false} ValueSkipsZeros(k: nat, s: string)
    requires AllDigits(s)
    ensures AllDigits(Zeros(k) + s) && Value(Zeros(k) + s) == Value(s)
  {
    var t := Zeros(k) + s;
    if s == [] {
      assert t == Zeros(k);
      if k > 0 {
        ValueSkipsZeros(k - 1, []);
        assert t[..|t| - 1] == Zeros(k - 1) + [];
      }
    } else {
      ValueSkipsZeros(k, s[..|s| - 1]);
      assert t[..|t| - 1] == Zeros(k) + s[..|s| - 1];
    }
  }

  lemma ValueOfPadGrow(n: nat, w: nat)
    ensures Value(PadGrow(n, w)) == n
  {
    hide Value, Digits;
    ValueOfDigits(n);
    if |Digits(n)| < w {
      ValueSkipsZeros(w - |Digits(n)|, Digits(n));
    }
  }

  lemma {:induction false} DigitsFit(n: nat, w: nat)
    requires w >= 1
    ensures |Digits(n)| <= w <==> n < Pow10(w)
  {
    if n >= 10 && w > 1 {
      DigitsFit(n / 10, w - 1);
    } else if n >= 10 {
      assert Pow10(1) == 10;
    } else if w > 1 {
      DigitsFit(n, w - 1);
    }
  }

  /** The number left when trailing digits are cut off n until at most w remain. */
  function LeadingDigits(n: nat, w: nat): (m: nat)
    requires w >= 1
    ensures n < Pow10(w) ==> m == n
    ensures n >= Pow10(w) ==> m < n
    ensures m < Pow10(w)
  {
    if n < Pow10(w) then n else LeadingDigits(n / 10, w)
  }

  lemma {:induction false} LeadingDigitsPrinted(n: nat, w: nat)
    requires 1 <= w <= |Digits(n)|
    ensures Digits(LeadingDigits(n, w)) == Digits(n)[..w]
  {
    DigitsFit(n, w);
    if n < Pow10(w) {
      assert Digits(n)[..w] == Digits(n);
    } else {
      assert n >= 10 by { assert Pow10(w) >= 10 by { assert Pow10(w - 1) >= 1; } }
      assert Digits(n)[..w] == Digits(n / 10)[..w];
      LeadingDigitsPrinted(n / 10, w);
    }
  }

  /** Below 10^w the two paddings print the same. */
  lemma PaddingsAgree(n: nat, w: nat)
    requires w >= 1 && n < Pow10(w)
    ensures PadLpad(n, w) == PadGrow(n, w)
  {
    DigitsFit(n, w);
    assert Zeros(0) + Digits(n) == Digits(n);
  }

  lemma LongLpad(n: nat, w: nat)
    requires w >= 1 && n >= Pow10(w)
    ensures PadLpad(n, w) == Digits(LeadingDigits(n, w))
  {
    DigitsFit(n, w);
    LeadingDigitsPrinted(n, w);
  }

  /** lpad printing is undone by parsing exactly below 10^w; past that it loses digits. */
  lemma ValueOfPadLpad(n: nat, w: nat)
    requires w >= 1
    ensures Value(PadLpad(n, w)) == LeadingDigits(n, w)
    ensures Value(PadLpad(n, w)) == n <==> n < Pow10(w)
  {
    hide Value, PadLpad, PadGrow, Digits;
    if n < Pow10(w) {
      PaddingsAgree(n, w);
      ValueOfPadGrow(n, w);
    } else {
      LongLpad(n, w);
      ValueOfDigits(LeadingDigits(n, w));
    }
  }

  lemma PadGrowInjective(m: nat, n: nat, w: nat)
    requires PadGrow(m, w) == PadGrow(n, w)
    ensures m == n
  {
    ValueOfPadGrow(m, w);
    ValueOfPadGrow(n, w);
  }

  /** A numeral followed by something that does not start with a digit splits in one way. */
  lemma SplitNumeral(a: string, b: string, s: string, t: string)
    requires AllDigits(a) && AllDigits(b)
    requires s == [] || !IsDigit(s[0])
    requires t == [] || !IsDigit(t[0])
    requires a + s == b + t
    ensures a == b && s == t
  {
    var u := a + s;
    assert |a| == |b| by {
      if |a| < |u| { assert u[|a|] == s[0]; }
      if |b| < |u| { assert u[|b|] == t[0]; }
      assert forall i :: 0 <= i < |a| ==> u[i] == a[i];
      assert forall i :: 0 <= i < |b| ==> u[i] == b[i];
    }
    assert (a + s)[..|a|] == a && (b + t)[..|b|] == b;
    assert (a + s)[|a|..] == s && (b + t)[|b|..] == t;
  }
}
