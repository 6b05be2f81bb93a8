/** The proleptic Gregorian calendar of Python's datetime.date, without its upper year limit. */
module Calendar {
  import opened Numerals
  import opened Arithmetic

  datatype DateValue = DateValue(year: int, month: int, day: int)

  predicate IsLeap(y: int) {
    y % 4 == 0 && (y % 100 != 0 || y % 400 == 0)
  }

  /** calendar.monthrange(year, month)[1] */
  function DaysInMonth(y: int, m: int): (n: int)
    requires 1 <= m <= 12
    ensures 28 <= n <= 31
  {
    if m == 2 then (if IsLeap(y) then 29 else 28)
    else if m in {4, 6, 9, 11} then 30
    else 31
  }

  predicate ValidDate(d: DateValue) {
    d.year >= 1 && 1 <= d.month <= 12 && 1 <= d.day <= DaysInMonth(d.year, d.month)
  }

  type Date = d: DateValue | ValidDate(d) witness DateValue(1, 1, 1)

  function DaysBeforeYear(y: int): int {
    (y - 1) * 365 + (y - 1) / 4 - (y - 1) / 100 + (y - 1) / 400
  }

  function DaysBeforeMonth(y: int, m: int): (n: int)
    requires 1 <= m <= 13
    ensures n >= 0
    decreases m
  {
    if m == 1 then 0 else DaysBeforeMonth(y, m - 1) + DaysInMonth(y, m - 1)
  }

  /** date.toordinal(): 1 for 0001-01-01. */
  function Ordinal(d: Date): int {
    DaysBeforeYear(d.year) + DaysBeforeMonth(d.year, d.month) + d.day
  }

  function FirstOfMonth(d: Date): Date {
    DateValue(d.year, d.month, 1)
  }

  /** Months since January of year 1. */
  function MonthIndex(d: Date): (i: nat) {
    12 * (d.year - 1) + d.month - 1
  }

  function MonthStart(i: nat): (d: Date)
    ensures d.day == 1 && MonthIndex(d) == i
  {
    DateValue(i / 12 + 1, i % 12 + 1, 1)
  }

  lemma DaysInYear(y: int)
    ensures DaysBeforeMonth(y, 13) == (if IsLeap(y) then 366 else 365)
  {
    assert DaysBeforeMonth(y, 3) == (if IsLeap(y) then 60 else 59);
    assert DaysBeforeMonth(y, 5) == DaysBeforeMonth(y, 3) + 61;
    assert DaysBeforeMonth(y, 7) == DaysBeforeMonth(y, 5) + 61;
    assert DaysBeforeMonth(y, 9) == DaysBeforeMonth(y, 7) + 62;
    assert DaysBeforeMonth(y, 11) == DaysBeforeMonth(y, 9) + 61;
  }

  lemma DaysBeforeNextYear(y: int)
    ensures DaysBeforeYear(y + 1) == DaysBeforeYear(y) + DaysBeforeMonth(y, 13)
  {
    DivStep(y, 4);
    DivStep(y, 100);
    DivStep(y, 400);
    DaysInYear(y);
    LeapCount(y);
  }

  lemma LeapCount(y: int)
    ensures (if y % 4 == 0 then 1 else 0) - (if y % 100 == 0 then 1 else 0) + (if y % 400 == 0 then 1 else 0)
         == (if IsLeap(y) then 1 else 0)
  {
  }

  /** The first day of the next month follows the last day of this one. */
  lemma MonthsAbut(i: nat)
    ensures Ordinal(MonthStart(i + 1)) == Ordinal(MonthStart(i)) + DaysInMonth(MonthStart(i).year, MonthStart(i).month)
  {
    hide MonthStart, DaysBeforeYear, DaysInMonth;
    NextMonthStart(i);
    var d := MonthStart(i);
    if d.month == 12 {
      DaysBeforeNextYear(d.year);
    } else {
      assert DaysBeforeMonth(d.year, d.month + 1) == DaysBeforeMonth(d.year, d.month) + DaysInMonth(d.year, d.month);
    }
  }

  lemma NextMonthStart(i: nat)
    ensures var d := MonthStart(i);
      MonthStart(i + 1) == if d.month == 12 then DateValue(d.year + 1, 1, 1) else DateValue(d.year, d.month + 1, 1)
  {
    hide IsLeap;
    if i % 12 == 11 {
      DivModUnique(i + 1, 12, i / 12 + 1, 0);
    } else {
      DivModUnique(i + 1, 12, i / 12, i % 12 + 1);
    }
  }

  lemma {:induction false} MonthStartsIncrease(i: nat, j: nat)
    requires i < j
    ensures Ordinal(MonthStart(i)) + DaysInMonth(MonthStart(i).year, MonthStart(i).month) <= Ordinal(MonthStart(j))
    decreases j - i
  {
    MonthsAbut(i);
    if i + 1 < j {
      MonthStartsIncrease(i + 1, j);
    }
  }

  /** A date lies between the first and the last day of a month exactly when it has that month and year. */
  lemma OrdinalFindsMonth(d: Date, i: nat)
    ensures var s := MonthStart(i);
      Ordinal(s) <= Ordinal(d) < Ordinal(s) + DaysInMonth(s.year, s.month) <==> MonthIndex(d) == i
  {
    var m := MonthIndex(d);
    assert MonthStart(m) == FirstOfMonth(d);
    if i < m {
      MonthStartsIncrease(i, m);
    } else if m < i {
      MonthStartsIncrease(m, i);
    }
  }

  /** strftime("%y%m%d") */
  function Yymmdd(d: Date): (s: string)
    ensures |s| == 6 && AllDigits(s)
  {
    TwoDigits(d.year % 100);
    TwoDigits(d.month);
    TwoDigits(d.day);
    PadGrow(d.year % 100, 2) + PadGrow(d.month, 2) + PadGrow(d.day, 2)
  }

  lemma TwoDigits(n: nat)
    requires n < 100
    ensures |PadGrow(n, 2)| == 2
  {
    assert Pow10(2) == 100 by { assert Pow10(1) == 10; }
    DigitsFit(n, 2);
  }

  /** Two days print alike exactly when they differ by whole centuries. */
  lemma YymmddCollides(a: Date, b: Date)
    ensures Yymmdd(a) == Yymmdd(b) <==> a.year % 100 == b.year % 100 && a.month == b.month && a.day == b.day
  {
    var s, t := Yymmdd(a), Yymmdd(b);
    TwoDigits(a.year % 100); TwoDigits(a.month); TwoDigits(a.day);
    TwoDigits(b.year % 100); TwoDigits(b.month); TwoDigits(b.day);
    if s == t {
      assert s[..2] == PadGrow(a.year % 100, 2) && t[..2] == PadGrow(b.year % 100, 2);
      assert s[2..4] == PadGrow(a.month, 2) && t[2..4] == PadGrow(b.month, 2);
      assert s[4..] == PadGrow(a.day, 2) && t[4..] == PadGrow(b.day, 2);
      PadGrowInjective(a.year % 100, b.year % 100, 2);
      PadGrowInjective(a.month, b.month, 2);
      PadGrowInjective(a.day, b.day, 2);
    }
  }
}
