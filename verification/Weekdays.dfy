/** Stepping over weekdays (scripts/demo_driver_mobile.py) and the ten-day shift window (demo_data.py).
    A date is its ordinal, date.toordinal(); ordinal 1 is a Monday. */
module Weekdays {
  import opened Calendar

  /** date.weekday(): Monday is 0. */
  function Weekday(d: int): (w: nat)
    ensures w < 7
  {
    (d + 6) % 7
  }

  predicate Working(d: int) {
    Weekday(d) < 5
  }

  /** Days of the week follow one another, the first of January 2000 is a Saturday, and work stops on Saturday and Sunday. */
  lemma WeekdayIs(d: int)
    ensures Weekday(d + 1) == (Weekday(d) + 1) % 7
    ensures Weekday(Ordinal(DateValue(2000, 1, 1))) == 5
    ensures Working(d) <==> Weekday(d) != 5 && Weekday(d) != 6
  {
    assert Ordinal(DateValue(2000, 1, 1)) == 730_120;
  }

  /** Weekdays in (a, b]. */
  function CountWorking(a: int, b: int): nat
    decreases b - a
  {
    if b <= a then 0 else CountWorking(a, b - 1) + (if Working(b) then 1 else 0)
  }

  // ---- The two steppers ----

  function After(d: int): (r: int)
    ensures Working(r) && d < r <= d + 3 && forall x :: d < x < r ==> !Working(x)
  {
    if Working(d + 1) then d + 1 else if Working(d + 2) then d + 2 else d + 3
  }

  function Before(d: int): (r: int)
    ensures Working(r) && d - 3 <= r < d && forall x :: r < x < d ==> !Working(x)
  {
    if Working(d - 1) then d - 1 else if Working(d - 2) then d - 2 else d - 3
  }

  function Next(d: int, k: nat): int {
    if k == 0 then d else After(Next(d, k - 1))
  }

  function Prev(d: int, k: nat): int {
    if k == 0 then d else Before(Prev(d, k - 1))
  }

  /** _next_weekday */
  method NextWeekday(d: int, steps: int) returns (cur: int)
    ensures cur == Next(d, if steps < 0 then 0 else steps)
  {
    cur := d;
    var i := 0;
    while i < steps
      invariant 0 <= i && (i <= steps || i == 0) && cur == Next(d, i)
    {
      ghost var from := cur;
      cur := cur + 1;
      while Weekday(cur) >= 5
        invariant from < cur <= After(from)
        decreases After(from) - cur
      {
        cur := cur + 1;
      }
      i := i + 1;
    }
  }

  /** _prev_weekday */
  method PrevWeekday(d: int, steps: int) returns (cur: int)
    ensures cur == Prev(d, if steps < 0 then 0 else steps)
  {
    cur := d;
    var i := 0;
    while i < steps
      invariant 0 <= i && (i <= steps || i == 0) && cur == Prev(d, i)
    {
      ghost var from := cur;
      cur := cur - 1;
      while Weekday(cur) >= 5
        invariant Before(from) <= cur < from
        decreases cur - Before(from)
      {
        cur := cur - 1;
      }
      i := i + 1;
    }
  }

  // ---- Ranks: a closed form ----

  /** How many weekdays there are up to d, counted from a fixed Monday. */
  function Rank(d: int): int {
    5 * ((d + 6) / 7) + (if Weekday(d) < 5 then Weekday(d) + 1 else 5)
  }

  /** The weekday with the given rank. */
  function DayOfRank(r: int): int {
    7 * ((r - 1) / 5) + (r - 1) % 5 - 6
  }

  lemma RankStep(d: int)
    ensures Rank(d) == Rank(d - 1) + (if Working(d) then 1 else 0)
  {
  }

  lemma {:induction false} RankCounts(a: int, b: int)
    requires a <= b
    ensures CountWorking(a, b) == Rank(b) - Rank(a)
    decreases b - a
  {
    if a < b {
      RankCounts(a, b - 1);
      RankStep(b);
    }
  }

  lemma {:induction false} RankMonotone(a: int, b: int)
    requires a <= b
    ensures Rank(a) <= Rank(b)
    ensures a < b && Working(b) ==> Rank(a) < Rank(b)
  {
  }

  lemma WorkingDayOfRank(d: int)
    requires Working(d)
    ensures DayOfRank(Rank(d)) == d
  {
  }

  lemma AfterRank(d: int)
    ensures Rank(After(d)) == Rank(d) + 1
  {
    RankStep(d + 1);
    RankStep(d + 2);
    RankStep(d + 3);
  }

  lemma BeforeRank(d: int)
    ensures Rank(Before(d)) == Rank(d - 1)
  {
  }

  lemma {:induction false} NextRank(d: int, k: nat)
    ensures Rank(Next(d, k)) == Rank(d) + k
    ensures k >= 1 ==> Working(Next(d, k)) && Next(d, k) == DayOfRank(Rank(d) + k)
  {
    hide Rank, DayOfRank, Weekday;
    if k > 0 {
      NextRank(d, k - 1);
      AfterRank(Next(d, k - 1));
      WorkingDayOfRank(Next(d, k));
    }
  }

  lemma {:induction false} PrevRank(d: int, k: nat)
    requires k >= 1
    ensures Rank(Prev(d, k)) == Rank(d - 1) + 1 - k
    ensures Working(Prev(d, k)) && Prev(d, k) == DayOfRank(Rank(d - 1) + 1 - k)
  {
    hide Rank, DayOfRank, Weekday;
    var p := Prev(d, k - 1);
    BeforeRank(p);
    if k > 1 {
      PrevRank(d, k - 1);
      RankStep(p);
    }
    WorkingDayOfRank(Prev(d, k));
  }

  // ---- What the steppers return ----

  /** _next_weekday(d, k) is the one weekday after d with exactly k weekdays in (d, it]. */
  lemma NextIsKthWeekday(d: int, k: nat, x: int)
    requires k >= 1
    ensures x == Next(d, k) <==> x > d && Working(x) && CountWorking(d, x) == k
  {
    hide Rank, DayOfRank, Weekday;
    NextRank(d, k);
    var n := Next(d, k);
    if n <= d {
      RankMonotone(n, d);
    }
    RankCounts(d, n);
    if x > d && Working(x) && CountWorking(d, x) == k {
      RankCounts(d, x);
      WorkingDayOfRank(x);
    }
  }

  /** _prev_weekday(d, k) is the one weekday before d with exactly k weekdays in [it, d). */
  lemma PrevIsKthWeekday(d: int, k: nat, x: int)
    requires k >= 1
    ensures x == Prev(d, k) <==> x < d && Working(x) && CountWorking(x - 1, d - 1) == k
  {
    hide Rank, DayOfRank, Weekday;
    PrevRank(d, k);
    var p := Prev(d, k);
    if p >= d {
      RankMonotone(d - 1, p - 1);
      RankStep(p);
    }
    RankStep(p);
    RankCounts(p - 1, d - 1);
    if x < d && Working(x) && CountWorking(x - 1, d - 1) == k {
      RankCounts(x - 1, d - 1);
      RankStep(x);
      WorkingDayOfRank(x);
    }
  }

  /** Stepping j and then k weekdays is stepping j + k. */
  lemma {:induction false} NextComposes(d: int, j: nat, k: nat)
    ensures Next(Next(d, j), k) == Next(d, j + k)
  {
    hide After, Working, Weekday;
    if k > 0 {
      NextComposes(d, j, k - 1);
    }
  }

  lemma NextMonotone(d: int, e: int, j: nat, k: nat)
    requires d <= e && j <= k
    ensures Next(d, j) <= Next(e, k)
    ensures j < k ==> Next(d, j) < Next(e, k)
  {
  }

  /** Going k weekdays forward and k back ends on d's own weekday, or on the Friday before when d is on a weekend. */
  lemma PrevUndoesNext(d: int, k: nat)
    requires k >= 1
    ensures Prev(Next(d, k), k) == if Working(d) then d else Before(d)
  {
    hide Rank, DayOfRank, Weekday;
    NextRank(d, k);
    var n := Next(d, k);
    RankStep(n);
    PrevRank(n, k);
    assert Rank(Prev(n, k)) == Rank(d);
    var back := if Working(d) then d else Before(d);
    BeforeRank(d);
    RankStep(d);
    WorkingDayOfRank(back);
  }

  /** Going k weekdays back and k forward ends on d's own weekday, or on the Monday after when d is on a weekend. */
  lemma NextUndoesPrev(d: int, k: nat)
    requires k >= 1
    ensures Next(Prev(d, k), k) == if Working(d) then d else After(d)
  {
    hide Rank, DayOfRank, Weekday;
    PrevRank(d, k);
    NextRank(Prev(d, k), k);
    RankStep(d);
    AfterRank(d);
    WorkingDayOfRank(if Working(d) then d else After(d));
  }

  // ---- The shift window ----

  /** The k weekdays before today, nearest first. */
  function Lookback(today: int, k: nat): (s: seq<int>)
    ensures |s| == k
  {
    if k == 0 then [] else Lookback(today, k - 1) + [Prev(today, k)]
  }

  /** The k weekdays after today, nearest first. */
  function Lookahead(today: int, k: nat): (s: seq<int>)
    ensures |s| == k
  {
    if k == 0 then [] else Lookahead(today, k - 1) + [Next(today, k)]
  }

  function Backwards(days: seq<int>): seq<int> {
    seq(|days|, i requires 0 <= i < |days| => days[|days| - 1 - i])
  }

  function ShiftWindow(today: int): (s: seq<int>)
    ensures |s| == 10
  {
    Backwards(Lookback(today, 5)) + Lookahead(today, 5)
  }

  /** list.reverse() */
  method ReverseDays(days: seq<int>) returns (r: seq<int>)
    ensures r == Backwards(days)
  {
    r := [];
    for i := 0 to |days|
      invariant |r| == i && forall j :: 0 <= j < i ==> r[j] == days[i - 1 - j]
    {
      r := [days[i]] + r;
    }
  }

  lemma RankWeek(d: int)
    ensures Rank(d + 7) == Rank(d) + 5
  {
  }

  lemma {:induction false} CountAtMostDays(a: int, b: int)
    requires a <= b
    ensures CountWorking(a, b) <= b - a
    decreases b - a
  {
    if a < b {
      CountAtMostDays(a, b - 1);
    }
  }

  /** Among any k + 2 days in a row at least k are weekdays, while k is at most 5. */
  lemma FiveWithinAWeek(d: int, k: nat)
    requires 1 <= k <= 5
    ensures Rank(d + k + 2) >= Rank(d) + k
    ensures Next(d, k) <= d + k + 2
  {
    hide Rank, DayOfRank, Weekday;
    RankWeek(d);
    RankCounts(d + k + 2, d + 7);
    CountAtMostDays(d + k + 2, d + 7);
    NextRank(d, k);
    if Next(d, k) > d + k + 2 {
      RankMonotone(d + k + 2, Next(d, k));
    }
  }

  /** The weekday d, seen from today, is the n-th one back. */
  lemma LookbackStep(today: int, d: int, n: nat)
    requires d < today && n == Rank(today - 1) - Rank(d) && Working(d)
    ensures d == Prev(today, n + 1)
  {
    hide Rank, DayOfRank, Weekday;
    PrevRank(today, n + 1);
    WorkingDayOfRank(d);
  }

  lemma {:induction false} LookaheadMembers(today: int, k: nat, x: int)
    ensures x in Lookahead(today, k) <==> x > today && Working(x) && Rank(x) - Rank(today) <= k
  {
    hide Rank, DayOfRank, Weekday;
    if k == 0 {
      if x > today && Working(x) {
        RankMonotone(today, x);
      }
    } else {
      LookaheadMembers(today, k - 1, x);
      NextIsKthWeekday(today, k, x);
      if x > today {
        RankCounts(today, x);
      }
    }
  }

  lemma {:induction false} LookbackMembers(today: int, k: nat, x: int)
    ensures x in Lookback(today, k) <==> x < today && Working(x) && Rank(today - 1) - Rank(x) < k
  {
    hide Rank, DayOfRank, Weekday;
    if k == 0 {
      if x < today {
        RankMonotone(x, today - 1);
      }
    } else {
      LookbackMembers(today, k - 1, x);
      PrevIsKthWeekday(today, k, x);
      if x < today {
        RankCounts(x - 1, today - 1);
        RankStep(x);
      }
    }
  }

  lemma BackwardsMembers(days: seq<int>, x: int)
    ensures x in Backwards(days) <==> x in days
  {
    var back := Backwards(days);
    if x in days {
      var i :| 0 <= i < |days| && days[i] == x;
      assert back[|days| - 1 - i] == x;
    }
  }

  /** _demo_shift_dates: both lookups always find their five days. */
  method DemoShiftDates(today: int) returns (days: seq<int>)
    ensures days == ShiftWindow(today)
  {
    days := [];
    var d := today;
    var i := 0;
    while i < 10
      invariant 0 <= i <= 10 && d == today - i
      invariant |days| < 5 && |days| == Rank(today - 1) - Rank(d - 1) && days == Lookback(today, |days|)
      decreases 10 - i
    {
      d := d - 1;
      RankStep(d);
      if Weekday(d) < 5 {
        LookbackStep(today, d, |days|);
        days := days + [d];
      }
      if |days| == 5 {
        break;
      }
      i := i + 1;
    }
    assert days == Lookback(today, 5) by {
      WeekHasFive(today);
    }
    days := ReverseDays(days);
    ghost var back := days;
    var j := 0;
    while j < 5
      invariant 0 <= j <= 5 && days == back + Lookahead(today, j)
      invariant back == Backwards(Lookback(today, 5))
    {
      FiveWithinAWeek(today, j + 1);
      NextIsKthWeekday(today, j + 1, Next(today, j + 1));
      var offset := 1;
      while offset < 14
        invariant 1 <= offset <= Next(today, j + 1) - today
        invariant days == back + Lookahead(today, j)
        decreases 14 - offset
      {
        var candidate := today + offset;
        CandidateIsNew(today, j, candidate);
        if Weekday(candidate) < 5 && candidate !in days {
          days := days + [candidate];
          break;
        }
        offset := offset + 1;
      }
      j := j + 1;
    }
  }

  /** Any ten days in a row hold at least five weekdays. */
  lemma WeekHasFive(today: int)
    ensures Rank(today - 1) - Rank(today - 11) >= 5
  {
  }

  /** Up to the next unseen weekday, a candidate is a weekday not yet listed exactly when it is that day. */
  lemma CandidateIsNew(today: int, j: nat, candidate: int)
    requires today < candidate <= Next(today, j + 1)
    ensures Working(candidate) && candidate !in Backwards(Lookback(today, 5)) + Lookahead(today, j)
      <==> candidate == Next(today, j + 1)
  {
    hide Rank, DayOfRank, Weekday;
    LookaheadMembers(today, j, candidate);
    LookbackMembers(today, 5, candidate);
    BackwardsMembers(Lookback(today, 5), candidate);
    NextRank(today, j + 1);
    RankMonotone(candidate, Next(today, j + 1));
    if Working(candidate) {
      WorkingDayOfRank(candidate);
    }
  }

  datatype ShiftStatus = Completed | InProgress | Scheduled

  /** The status that _ensure_driver_demo_shifts gives a shift day. */
  function StatusOn(day: int, today: int): ShiftStatus {
    if day < today then Completed else if day == today then InProgress else Scheduled
  }

  /** The window is ten strictly increasing weekdays: exactly the five nearest before today and the five nearest after
      it. Today is never one of them, so no shift is ever given the in-progress status. */
  lemma ShiftWindowIs(today: int)
    ensures |ShiftWindow(today)| == 10
    ensures forall i, j :: 0 <= i < j < 10 ==> ShiftWindow(today)[i] < ShiftWindow(today)[j]
    ensures forall x :: x in ShiftWindow(today) <==>
      Working(x) && (if x < today then CountWorking(x - 1, today - 1) <= 5 else x > today && CountWorking(today, x) <= 5)
    ensures forall i :: 0 <= i < 10 ==> StatusOn(ShiftWindow(today)[i], today) == if i < 5 then Completed else Scheduled
  {
    WindowOrder(today);
    forall x ensures x in ShiftWindow(today) <==>
      Working(x) && (if x < today then CountWorking(x - 1, today - 1) <= 5 else x > today && CountWorking(today, x) <= 5)
    {
      LookaheadMembers(today, 5, x);
      LookbackMembers(today, 5, x);
      BackwardsMembers(Lookback(today, 5), x);
      if x < today {
        RankCounts(x - 1, today - 1);
        RankStep(x);
      } else if x > today {
        RankCounts(today, x);
      }
    }
  }

  lemma LookbackAt(today: int, k: nat, i: nat)
    requires i < k
    ensures Lookback(today, k)[i] == Prev(today, i + 1)
  {
  }

  lemma LookaheadAt(today: int, k: nat, i: nat)
    requires i < k
    ensures Lookahead(today, k)[i] == Next(today, i + 1)
  {
  }

  lemma WindowAt(today: int, i: nat)
    requires i < 10
    ensures ShiftWindow(today)[i] == if i < 5 then Prev(today, 5 - i) else Next(today, i - 4)
  {
    hide Prev, Next, Lookback, Lookahead;
    if i < 5 {
      LookbackAt(today, 5, 4 - i);
    } else {
      LookaheadAt(today, 5, i - 5);
    }
  }

  lemma PrevBelow(today: int, j: nat, k: nat)
    requires j < k
    ensures Prev(today, k) < Prev(today, j)
  {
  }

  lemma WindowOrder(today: int)
    ensures forall i, j :: 0 <= i < j < 10 ==> ShiftWindow(today)[i] < ShiftWindow(today)[j]
    ensures forall i :: 0 <= i < 10 ==> (ShiftWindow(today)[i] < today <==> i < 5) && ShiftWindow(today)[i] != today
  {
    hide ShiftWindow, Prev, Next;
    forall i | 0 <= i < 10 ensures (ShiftWindow(today)[i] < today <==> i < 5) && ShiftWindow(today)[i] != today {
      WindowAt(today, i);
      if i < 5 { PrevZero(today); PrevBelow(today, 0, 5 - i); } else { NextZero(today); NextMonotone(today, today, 0, i - 4); }
    }
    forall i, j | 0 <= i < j < 10 ensures ShiftWindow(today)[i] < ShiftWindow(today)[j] {
      WindowAt(today, i);
      WindowAt(today, j);
      if j < 5 { PrevBelow(today, 5 - j, 5 - i); }
      if i >= 5 { NextMonotone(today, today, i - 4, j - 4); }
    }
  }

  lemma PrevZero(today: int)
    ensures Prev(today, 0) == today
  {
  }

  lemma NextZero(today: int)
    ensures Next(today, 0) == today
  {
  }
}
