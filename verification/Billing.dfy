/** Amounts in scripts/seed_org_billing_complete_demo.py, in whole pennies, and its statement months. */
module Billing {
  import opened Outcomes
  import opened Arithmetic
  import opened Rounding
  import opened Calendar

  // ---- VAT ----

  /** A rate in per cent, as an exact fraction. */
  datatype Rate = Rate(num: nat, den: nat) {
    predicate Valid() { den >= 1 }
    function Divisor(): int { 100 * den }
  }

  const STANDARD := Rate(20, 1)

  /** _vat: the tax and the total on a subtotal. */
  function Vat(subtotal: int, rate: Rate): int
    requires rate.Valid()
  {
    RoundHalfEven(subtotal * rate.num, rate.Divisor())
  }

  function Total(subtotal: int, rate: Rate): int
    requires rate.Valid()
  {
    subtotal + Vat(subtotal, rate)
  }

  function Sum(xs: seq<int>): int {
    if xs == [] then 0 else Sum(xs[..|xs| - 1]) + xs[|xs| - 1]
  }

  function SumVat(xs: seq<int>, rate: Rate): int
    requires rate.Valid()
  {
    if xs == [] then 0 else SumVat(xs[..|xs| - 1], rate) + Vat(xs[|xs| - 1], rate)
  }

  /** The tax, and so the total, is off by at most half a penny. */
  lemma VatError(subtotal: int, rate: Rate)
    requires rate.Valid()
    ensures -rate.Divisor() <= 2 * (rate.Divisor() * Vat(subtotal, rate) - subtotal * rate.num) <= rate.Divisor()
    ensures -rate.Divisor() <= 2 * (rate.Divisor() * Total(subtotal, rate) - subtotal * (rate.Divisor() + rate.num)) <= rate.Divisor()
  {
  }

  lemma VatMonotone(a: int, b: int, rate: Rate)
    requires rate.Valid() && a <= b
    ensures Vat(a, rate) <= Vat(b, rate) && Total(a, rate) <= Total(b, rate)
  {
    assert a * rate.num <= b * rate.num;
    RoundMonotone(a * rate.num, b * rate.num, rate.Divisor());
  }

  lemma AddErrors(d: int, a: int, v: int, e: int, x: int, num: int, n: int)
    requires -(d * n) <= 2 * (d * a - e * num) <= d * n
    requires -d <= 2 * (d * v - x * num) <= d
    ensures -(d * (n + 1)) <= 2 * (d * (a + v) - (e + x) * num) <= d * (n + 1)
  {
    Distribute(d, a, v);
    Distribute(d, n, 1);
    Distribute(num, e, x);
  }

  lemma {:induction false} SumVatError(xs: seq<int>, rate: Rate)
    requires rate.Valid()
    ensures var d := rate.Divisor();
      -(d * |xs|) <= 2 * (d * SumVat(xs, rate) - Sum(xs) * rate.num) <= d * |xs|
  {
    var d := rate.Divisor();
    if xs != [] {
      var init, x := xs[..|xs| - 1], xs[|xs| - 1];
      hide Vat;
      SumVatError(init, rate);
      VatError(x, rate);
      AddErrors(d, SumVat(init, rate), Vat(x, rate), Sum(init), x, rate.num, |init|);
    }
  }

  /** The tax added up over n invoices differs from the tax on their sum by at most (n + 1) / 2 pennies. */
  lemma VatOfSum(xs: seq<int>, rate: Rate)
    requires rate.Valid()
    ensures -(|xs| + 1) <= 2 * (SumVat(xs, rate) - Vat(Sum(xs), rate)) <= |xs| + 1
  {
    var d, a, b, e := rate.Divisor(), SumVat(xs, rate), Vat(Sum(xs), rate), Sum(xs) * rate.num;
    SumVatError(xs, rate);
    VatError(Sum(xs), rate);
    NearBothWays(d, a, b, e, |xs|);
  }

  lemma NearBothWays(d: int, a: int, b: int, e: int, n: nat)
    requires d >= 1
    requires -(d * n) <= 2 * (d * a - e) <= d * n
    requires -d <= 2 * (d * b - e) <= d
    ensures -(n + 1) <= 2 * (a - b) <= n + 1
  {
    var gap := 2 * (a - b);
    assert d * gap == 2 * (d * a) - 2 * (d * b);
    assert d * (n + 1) == d * n + d;
    assert d * -gap == -(d * gap);
    CancelFactor(d, gap, n + 1);
    CancelFactor(d, -gap, n + 1);
  }

  /** At 20 per cent no subtotal in whole pennies is a tie, so half to even is half up and the error is at most two
      fifths of a penny. */
  lemma StandardRateHasNoTies(subtotal: int)
    ensures Vat(subtotal, STANDARD) == RoundHalfUp(subtotal * 20, 100)
    ensures -2 <= 5 * Vat(subtotal, STANDARD) - subtotal <= 2
  {
  }

  /** At the reduced rate of 5 per cent the two roundings differ on exactly one subtotal in every forty, where half to
      even asks a penny less. */
  lemma ReducedRateTies(subtotal: int)
    ensures Vat(subtotal, Rate(5, 1)) != RoundHalfUp(subtotal * 5, 100) <==> subtotal % 40 == 10
    ensures subtotal % 40 == 10 ==> Vat(subtotal, Rate(5, 1)) == RoundHalfUp(subtotal * 5, 100) - 1
  {
    RoundingsDifferExactly(subtotal * 5, 100);
    assert subtotal == 20 * (subtotal / 20) + subtotal % 20;
    DivModUnique(subtotal * 5, 100, subtotal / 20, 5 * (subtotal % 20));
    assert subtotal == 40 * (subtotal / 40) + subtotal % 40;
    var h := subtotal % 40;
    if h < 20 {
      DivModUnique(subtotal, 20, 2 * (subtotal / 40), h);
    } else {
      DivModUnique(subtotal, 20, 2 * (subtotal / 40) + 1, h - 20);
    }
  }

  /** (total * 0.55).quantize(0.01): a part payment never exceeds the invoice, and settles it only at a single penny. */
  function Share(total: int, percent: nat): int {
    RoundHalfEven(total * percent, 100)
  }

  lemma PartPaymentLeavesBalance(total: int, percent: nat)
    requires total >= 0 && percent <= 100
    ensures 0 <= Share(total, percent) <= total
    ensures -50 <= 100 * Share(total, percent) - total * percent <= 50
    ensures percent == 55 ==> (Share(total, percent) == total <==> total <= 1)
  {
    assert 0 <= total * percent <= total * 100;
    RoundMonotone(0, total * percent, 100);
    RoundMonotone(total * percent, total * 100, 100);
    RoundMultiple(total, 100);
    RoundMultiple(0, 100);
    if percent == 55 {
      RoundCharacterised(total * 55, 100, total);
    }
  }

  // ---- Statement months ----

  /** d - timedelta(days=1); None below date.min. */
  function MinusDay(d: Date): (r: Option<Date>)
    ensures r.None? <==> d == DateValue(1, 1, 1)
  {
    if d.day > 1 then Some(DateValue(d.year, d.month, d.day - 1))
    else if d.month > 1 then Some(DateValue(d.year, d.month - 1, DaysInMonth(d.year, d.month - 1)))
    else if d.year > 1 then Some(DateValue(d.year - 1, 12, 31))
    else None
  }

  lemma MinusDayOrdinal(d: Date)
    ensures MinusDay(d).Some? ==> Ordinal(MinusDay(d).value) == Ordinal(d) - 1
  {
    hide IsLeap, DaysBeforeYear;
    if d.day == 1 && d.month == 1 && d.year > 1 {
      DaysBeforeNextYear(d.year - 1);
    }
  }

  /** The step-back loop: the first day of the month k months before today's; None when it would leave the calendar. */
  method StepBack(today: Date, k: nat) returns (start: Option<Date>)
    ensures start == if k <= MonthIndex(today) then Some(MonthStart(MonthIndex(today) - k)) else None
  {
    hide DaysInMonth, IsLeap, MinusDay, MonthStart, MonthIndex;
    var ref: Date := FirstOfMonth(today);
    FirstIsMonthStart(today);
    var i := 0;
    while i < k
      invariant 0 <= i <= k && i <= MonthIndex(today)
      invariant ref == MonthStart(MonthIndex(today) - i)
    {
      PreviousMonth(MonthIndex(today) - i);
      var eve := MinusDay(ref);
      if eve.None? {
        return None;
      }
      ref := FirstOfMonth(eve.value);
      i := i + 1;
    }
    return Some(ref);
  }

  lemma FirstIsMonthStart(d: Date)
    ensures FirstOfMonth(d) == MonthStart(MonthIndex(d))
  {
    hide DaysInMonth, IsLeap;
    DivModUnique(MonthIndex(d), 12, d.year - 1, d.month - 1);
  }

  lemma PreviousMonth(i: nat)
    ensures var eve := MinusDay(MonthStart(i));
      if i == 0 then eve.None? else eve.Some? && FirstOfMonth(eve.value) == MonthStart(i - 1)
  {
    hide DaysInMonth, MonthStart;
    if i > 0 {
      NextMonthStart(i - 1);
    }
  }

  /** _month_period */
  function MonthPeriod(year: int, month: int): (Date, Date)
    requires year >= 1 && 1 <= month <= 12
  {
    (DateValue(year, month, 1), DateValue(year, month, DaysInMonth(year, month)))
  }

  /** The statement period k months back. */
  function Statement(today: Date, k: nat): (Date, Date)
    requires k <= MonthIndex(today)
  {
    var s := MonthStart(MonthIndex(today) - k);
    MonthPeriod(s.year, s.month)
  }

  lemma StatementIs(today: Date, k: nat)
    requires k <= MonthIndex(today)
    ensures var p, s := Statement(today, k), MonthStart(MonthIndex(today) - k);
      p.0 == s && Ordinal(p.1) == Ordinal(s) + DaysInMonth(s.year, s.month) - 1
  {
  }

  /** Consecutive periods leave no day between them and share none. */
  lemma StatementsAbut(today: Date, k: nat)
    requires k + 1 <= MonthIndex(today)
    ensures Ordinal(Statement(today, k + 1).1) + 1 == Ordinal(Statement(today, k).0)
  {
    hide Statement, Ordinal, MonthStart, DaysInMonth, MonthIndex;
    StatementIs(today, k);
    StatementIs(today, k + 1);
    MonthsAbut(MonthIndex(today) - k - 1);
  }

  predicate InPeriod(d: Date, period: (Date, Date)) {
    Ordinal(period.0) <= Ordinal(d) <= Ordinal(period.1)
  }

  lemma InStatementExactly(today: Date, k: nat, d: Date)
    requires k <= MonthIndex(today)
    ensures InPeriod(d, Statement(today, k)) <==> MonthIndex(d) == MonthIndex(today) - k
  {
    hide Statement, Ordinal, MonthStart, DaysInMonth, MonthIndex;
    StatementIs(today, k);
    OrdinalFindsMonth(d, MonthIndex(today) - k);
  }

  /** The statements of the last n months cover exactly the days from the first one's start up to the last day before
      the current month, each day in exactly one statement. */
  lemma StatementsPartition(today: Date, n: nat, d: Date)
    requires 1 <= n <= MonthIndex(today)
    ensures (exists k :: 1 <= k <= n && InPeriod(d, Statement(today, k)))
      <==> Ordinal(Statement(today, n).0) <= Ordinal(d) < Ordinal(FirstOfMonth(today))
    ensures forall j, k | 1 <= j <= n && 1 <= k <= n :: InPeriod(d, Statement(today, j)) && InPeriod(d, Statement(today, k)) ==> j == k
  {
    hide InPeriod, Statement, DaysInMonth, MonthStart;
    forall k | 1 <= k <= n ensures InPeriod(d, Statement(today, k)) <==> MonthIndex(d) == MonthIndex(today) - k {
      InStatementExactly(today, k, d);
    }
    var m := MonthIndex(today);
    StatementIs(today, n);
    FirstIsMonthStart(today);
    OrdinalAgainstMonth(d, m - n);
    OrdinalAgainstMonth(d, m);
    if m - n <= MonthIndex(d) < m {
      assert InPeriod(d, Statement(today, m - MonthIndex(d)));
    }
  }

  lemma OrdinalAgainstMonth(d: Date, i: nat)
    ensures Ordinal(MonthStart(i)) <= Ordinal(d) <==> i <= MonthIndex(d)
  {
    var m := MonthIndex(d);
    OrdinalFindsMonth(d, m);
    if i < m {
      MonthStartsIncrease(i, m);
    } else if m < i {
      MonthStartsIncrease(m, i);
    }
  }
}
