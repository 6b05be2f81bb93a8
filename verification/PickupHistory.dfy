/** What the route history service reads back from a finished drive: RouteGeometryService.compute_traveled_history. */
module PickupHistory {
  import opened Outcomes
  import opened Downsampling
  import opened PickupDrive

  // ---- Which leg a ping belongs to ----

  /** Pings before leg k; legs are counted from 0. */
  function Before(legs: seq<nat>, k: nat): nat
    requires k <= |legs|
  {
    Sum(legs[..k])
  }

  /** The simulated arrival after the first k legs; arrival 0 is the start. */
  function Arrival(legs: seq<nat>, k: nat, start: real, step: real): real
    requires k <= |legs|
  {
    TickAt(start, Before(legs, k), step)
  }

  lemma BeforeNext(legs: seq<nat>, k: nat)
    requires k < |legs|
    ensures Before(legs, k + 1) == Before(legs, k) + legs[k]
  {
    assert legs[..k + 1][..k] == legs[..k];
  }

  lemma {:induction false} BeforeMonotone(legs: seq<nat>, j: nat, k: nat)
    requires j <= k <= |legs|
    ensures Before(legs, j) <= Before(legs, k)
    decreases k
  {
    if j < k {
      BeforeNext(legs, k - 1);
      BeforeMonotone(legs, j, k - 1);
    }
  }

  lemma TickOrder(start: real, i: nat, j: nat, step: real)
    requires step > 0.0
    ensures TickAt(start, i, step) < TickAt(start, j, step) <==> i < j
    ensures TickAt(start, i, step) <= TickAt(start, j, step) <==> i <= j
  {
  }

  /** Ping g falls into the window from arrival k up to, not including, the next arrival exactly when leg k sent it. */
  lemma HalfOpenWindow(legs: seq<nat>, k: nat, g: nat, start: real, step: real)
    requires k < |legs| && step > 0.0
    ensures Arrival(legs, k, start, step) <= TickAt(start, g, step) < Arrival(legs, k + 1, start, step)
      <==> Before(legs, k) <= g < Before(legs, k) + legs[k]
  {
    hide TickAt, Before;
    BeforeNext(legs, k);
    TickOrder(start, Before(legs, k), g, step);
    TickOrder(start, g, Before(legs, k + 1), step);
  }

  lemma {:induction false} LegOf(legs: seq<nat>, n: nat, g: nat) returns (k: nat)
    requires n <= |legs| && g < Before(legs, n)
    ensures k < n && Before(legs, k) <= g < Before(legs, k) + legs[k]
  {
    BeforeNext(legs, n - 1);
    if g < Before(legs, n - 1) {
      k := LegOf(legs, n - 1, g);
    } else {
      k := n - 1;
    }
  }

  lemma WholeDrive(legs: seq<nat>)
    ensures Before(legs, |legs|) == Sum(legs)
  {
    assert legs[..|legs|] == legs;
  }

  predicate InWindow(legs: seq<nat>, k: nat, g: nat, start: real, step: real)
    requires k < |legs|
  {
    Arrival(legs, k, start, step) <= TickAt(start, g, step) < Arrival(legs, k + 1, start, step)
  }

  lemma OneWindowOnly(legs: seq<nat>, j: nat, k: nat, g: nat, start: real, step: real)
    requires step > 0.0 && j < k < |legs|
    ensures !(InWindow(legs, j, g, start, step) && InWindow(legs, k, g, start, step))
  {
    hide TickAt, Arrival, Before;
    HalfOpenWindow(legs, j, g, start, step);
    HalfOpenWindow(legs, k, g, start, step);
    BeforeNext(legs, j);
    BeforeMonotone(legs, j + 1, k);
  }

  lemma InTheWindow(legs: seq<nat>, k: nat, g: nat, start: real, step: real)
    requires k < |legs| && step > 0.0 && Before(legs, k) <= g < Before(legs, k) + legs[k]
    ensures InWindow(legs, k, g, start, step)
  {
    HalfOpenWindow(legs, k, g, start, step);
  }

  /** The n numbers from a on. */
  function Range(a: nat, n: nat): (r: set<nat>)
    ensures |r| == n && forall g :: g in r <==> a <= g < a + n
  {
    if n == 0 then {} else Range(a, n - 1) + {a + n - 1}
  }

  /** The pings that the history service reads for leg k: its window includes both arrivals. */
  function WindowPings(legs: seq<nat>, k: nat): set<nat>
    requires k < |legs|
  {
    set g | g in Range(0, Sum(legs)) && Before(legs, k) <= g <= Before(legs, k) + legs[k]
  }

  /** A leg's window holds its own pings and, unless it is the last leg, the first ping of the next one: the next leg
      starts pinging at the very second of the arrival. */
  lemma WindowHoldsOneMore(legs: seq<nat>, k: nat)
    requires k < |legs| && forall i :: 0 <= i < |legs| ==> legs[i] >= 1
    ensures |WindowPings(legs, k)| == legs[k] + (if k + 1 < |legs| then 1 else 0)
  {
    hide Before;
    var a, n := Before(legs, k), legs[k];
    WholeDrive(legs);
    BeforeNext(legs, k);
    if k + 1 < |legs| {
      BeforeNext(legs, k + 1);
      BeforeMonotone(legs, k + 2, |legs|);
      assert WindowPings(legs, k) == Range(a, n + 1);
    } else {
      assert WindowPings(legs, k) == Range(a, n);
    }
  }

  // ---- Recorded arrivals ----

  predicate DistinctRows(rows: seq<Row>) {
    forall i, j :: 0 <= i < j < |rows| ==> rows[i].stop != rows[j].stop
  }

  /** The arrival on record at a row's stop. */
  function ArrivalAt(u: World, row: Row): Option<real> {
    if row.stop in u.stops then u.stops[row.stop].arrival else None
  }

  /** The time from which row i is read: the arrival at the last earlier stop with coordinates, else the start event. */
  function ReadFrom(u: World, rows: seq<Row>, i: nat, began: Option<real>): Option<real>
    requires i <= |rows|
  {
    if i == 0 then began else if rows[i - 1].located then ArrivalAt(u, rows[i - 1]) else ReadFrom(u, rows, i - 1, began)
  }

  /** How many of the first i rows are driven. */
  function LegsBefore(rows: seq<Row>, lengths: seq<nat>, i: nat): nat
    requires |lengths| == |rows| && i <= |rows|
  {
    |Legs(rows[..i], lengths[..i])|
  }

  lemma {:induction false} LegsPrefix(rows: seq<Row>, lengths: seq<nat>, i: nat)
    requires |lengths| == |rows| && i <= |rows|
    ensures Legs(rows[..i], lengths[..i]) <= Legs(rows, lengths)
    decreases |rows| - i
  {
    if i == |rows| {
      assert rows[..i] == rows && lengths[..i] == lengths;
    } else {
      assert rows[..i + 1][..i] == rows[..i] && lengths[..i + 1][..i] == lengths[..i];
      LegsPrefix(rows, lengths, i + 1);
    }
  }

  /** The driven row i sends leg number LegsBefore(i). */
  lemma LegOfRow(rows: seq<Row>, lengths: seq<nat>, i: nat)
    requires |lengths| == |rows| && i < |rows|
    ensures var legs, k := Legs(rows, lengths), LegsBefore(rows, lengths, i);
      && k <= |legs| && Legs(rows[..i], lengths[..i]) == legs[..k]
      && LegsBefore(rows, lengths, i + 1) == k + (if rows[i].located then 1 else 0)
      && (rows[i].located ==> k < |legs| && legs[k] == lengths[i])
  {
    LegsPrefix(rows, lengths, i);
    LegsPrefix(rows, lengths, i + 1);
    assert rows[..i + 1][..i] == rows[..i] && lengths[..i + 1][..i] == lengths[..i];
  }

  lemma {:induction false} RowOfLeg(rows: seq<Row>, lengths: seq<nat>, n: nat, k: nat) returns (i: nat)
    requires |lengths| == |rows| && n <= |rows| && k < LegsBefore(rows, lengths, n)
    ensures i < n && rows[i].located && LegsBefore(rows, lengths, i) == k
  {
    hide Legs;
    if n == 0 {
      NoLegsYet(rows, lengths);
      assert false;
    } else {
      LegOfRow(rows, lengths, n - 1);
      if k < LegsBefore(rows, lengths, n - 1) {
        i := RowOfLeg(rows, lengths, n - 1, k);
      } else {
        i := n - 1;
      }
    }
  }

  lemma NoLegsYet(rows: seq<Row>, lengths: seq<nat>)
    requires |lengths| == |rows|
    ensures LegsBefore(rows, lengths, 0) == 0
  {
  }

  lemma {:induction false} LegsIncrease(rows: seq<Row>, lengths: seq<nat>, i: nat, j: nat)
    requires |lengths| == |rows| && i < j <= |rows|
    ensures LegsBefore(rows, lengths, i) + (if rows[i].located then 1 else 0) <= LegsBefore(rows, lengths, j)
    decreases j
  {
    hide Legs;
    LegOfRow(rows, lengths, i);
    if i + 1 < j {
      LegsIncrease(rows, lengths, i, j - 1);
      LegOfRow(rows, lengths, j - 1);
    }
  }

  lemma {:induction false} LegsPositive(rows: seq<Row>, lengths: seq<nat>)
    requires |lengths| == |rows| && forall i :: 0 <= i < |rows| && rows[i].located ==> lengths[i] >= 1
    ensures forall k :: 0 <= k < |Legs(rows, lengths)| ==> Legs(rows, lengths)[k] >= 1
  {
    if rows != [] {
      LegsPositive(rows[..|rows| - 1], lengths[..|rows| - 1]);
    }
  }

  /** After a finished drive each driven stop has its leg's arrival on record. */
  lemma ArrivalsOnRecord(w: World, rows: seq<Row>, reset: bool, lengths: seq<nat>, start: real, pace: Pace, i: nat)
    requires FreshlyDriven(w, rows, reset, lengths, start, pace) && DistinctRows(rows)
    requires i < |rows| && rows[i].located
    ensures LegsBefore(rows, lengths, i) < |Legs(rows, lengths)|
    ensures ArrivalAt(Run(w, rows, reset, lengths, start, pace).0, rows[i]) ==
      Some(Arrival(Legs(rows, lengths), LegsBefore(rows, lengths, i) + 1, start, StepSeconds(pace)))
  {
    hide DriveRows, Run, Legs, Sum, TickAt, StepSeconds, PingTimes, Passable;
    FinishedLoop(w, rows, reset, lengths, start, pace);
    DrivenStopsArrive(Started(Prepared(w, rows, reset)), rows, lengths, start, StepSeconds(pace), i);
    LegOfRow(rows, lengths, i);
    var k := LegsBefore(rows, lengths, i);
    if i + 1 < |rows| {
      LegOfRow(rows, lengths, i + 1);
    } else {
      assert rows[..i + 1] == rows && lengths[..i + 1] == lengths;
      assert Legs(rows, lengths)[..k + 1] == Legs(rows, lengths);
    }
  }

  lemma {:induction false} ReadFromIs(w: World, rows: seq<Row>, reset: bool, lengths: seq<nat>, start: real, pace: Pace,
                                      began: Option<real>, i: nat)
    requires FreshlyDriven(w, rows, reset, lengths, start, pace) && DistinctRows(rows) && i <= |rows|
    ensures LegsBefore(rows, lengths, i) <= |Legs(rows, lengths)|
    ensures ReadFrom(Run(w, rows, reset, lengths, start, pace).0, rows, i, began) ==
      if LegsBefore(rows, lengths, i) == 0 then began
      else Some(Arrival(Legs(rows, lengths), LegsBefore(rows, lengths, i), start, StepSeconds(pace)))
  {
    hide FreshlyDriven, Run, Legs, Arrival, StepSeconds;
    LengthsMatch(w, rows, reset, lengths, start, pace);
    if i == 0 {
      NoLegsYet(rows, lengths);
    } else {
      LegOfRow(rows, lengths, i - 1);
      if rows[i - 1].located {
        ArrivalsOnRecord(w, rows, reset, lengths, start, pace, i - 1);
      } else {
        ReadFromIs(w, rows, reset, lengths, start, pace, began, i - 1);
      }
    }
  }

  lemma LengthsMatch(w: World, rows: seq<Row>, reset: bool, lengths: seq<nat>, start: real, pace: Pace)
    requires FreshlyDriven(w, rows, reset, lengths, start, pace)
    ensures |lengths| == |rows|
  {
  }

  // ---- Every ping belongs to one driven stop ----

  /** The time lies in the half-open window of row i: from the arrival before it up to, not including, its own. */
  predicate OwnedBy(u: World, rows: seq<Row>, i: nat, start: real, at: real)
    requires i < |rows|
  {
    && rows[i].located && ReadFrom(u, rows, i, Some(start)).Some? && ArrivalAt(u, rows[i]).Some?
    && ReadFrom(u, rows, i, Some(start)).value <= at < ArrivalAt(u, rows[i]).value
  }

  /** Ping g of a finished drive is owned by the driven row whose leg sent it. */
  lemma OwnedExactly(w: World, rows: seq<Row>, reset: bool, lengths: seq<nat>, start: real, pace: Pace, i: nat, g: nat)
    requires FreshlyDriven(w, rows, reset, lengths, start, pace) && DistinctRows(rows)
    requires i < |rows| && rows[i].located && g < Sum(Legs(rows, lengths))
    ensures LegsBefore(rows, lengths, i) < |Legs(rows, lengths)|
    ensures OwnedBy(Run(w, rows, reset, lengths, start, pace).0, rows, i, start, TickAt(start, g, StepSeconds(pace))) <==>
      InWindow(Legs(rows, lengths), LegsBefore(rows, lengths, i), g, start, StepSeconds(pace))
  {
    hide FreshlyDriven, Run, Legs, TickAt, StepSeconds, Sum;
    LengthsMatch(w, rows, reset, lengths, start, pace);
    ArrivalsOnRecord(w, rows, reset, lengths, start, pace, i);
    ReadFromIs(w, rows, reset, lengths, start, pace, Some(start), i);
    FirstArrival(Legs(rows, lengths), start, StepSeconds(pace));
  }

  lemma FirstArrival(legs: seq<nat>, start: real, step: real)
    ensures Arrival(legs, 0, start, step) == start
  {
  }

  /** Every ping a finished drive has on record lies in exactly one half-open window between the recorded arrivals of
      consecutive driven stops, the first window starting at the drive's start. */
  lemma PingInOneWindow(w: World, rows: seq<Row>, reset: bool, lengths: seq<nat>, start: real, pace: Pace, g: nat)
    requires FreshlyDriven(w, rows, reset, lengths, start, pace) && DistinctRows(rows)
    requires g < |PingTimes(Run(w, rows, reset, lengths, start, pace).0.events)|
    ensures var u := Run(w, rows, reset, lengths, start, pace).0;
      var at := PingTimes(u.events)[g];
      && (exists i: nat :: i < |rows| && OwnedBy(u, rows, i, start, at))
      && (forall i: nat, j: nat | i < j < |rows| :: !(OwnedBy(u, rows, i, start, at) && OwnedBy(u, rows, j, start, at)))
  {
    hide FreshlyDriven, Run, Legs, PingTimes, TickAt, StepSeconds, Sum, OwnedBy, InWindow, LegsBefore, Before;
    LengthsMatch(w, rows, reset, lengths, start, pace);
    var u, step, legs := Run(w, rows, reset, lengths, start, pace).0, StepSeconds(pace), Legs(rows, lengths);
    FinishedDriveTimes(w, rows, reset, lengths, start, pace);
    WholeDrive(legs);
    var k := LegOf(legs, |legs|, g);
    InTheWindow(legs, k, g, start, step);
    AllLegs(rows, lengths);
    var i := RowOfLeg(rows, lengths, |rows|, k);
    OwnedExactly(w, rows, reset, lengths, start, pace, i, g);
    forall i: nat, j: nat | i < j < |rows|
      ensures !(OwnedBy(u, rows, i, start, TickAt(start, g, step)) && OwnedBy(u, rows, j, start, TickAt(start, g, step)))
    {
      if rows[i].located && rows[j].located {
        OwnedExactly(w, rows, reset, lengths, start, pace, i, g);
        OwnedExactly(w, rows, reset, lengths, start, pace, j, g);
        LegsIncrease(rows, lengths, i, j);
        OneWindowOnly(legs, LegsBefore(rows, lengths, i), LegsBefore(rows, lengths, j), g, start, step);
      } else {
        NotOwned(u, rows, i, start, TickAt(start, g, step));
        NotOwned(u, rows, j, start, TickAt(start, g, step));
      }
    }
  }

  lemma NotOwned(u: World, rows: seq<Row>, i: nat, start: real, at: real)
    requires i < |rows|
    ensures !rows[i].located ==> !OwnedBy(u, rows, i, start, at)
  {
  }

  lemma AllLegs(rows: seq<Row>, lengths: seq<nat>)
    requires |lengths| == |rows|
    ensures LegsBefore(rows, lengths, |rows|) == |Legs(rows, lengths)|
  {
    assert rows[..|rows|] == rows && lengths[..|rows|] == lengths;
  }

  // ---- The history ----

  const MAX_PINGS_PER_LEG := 100

  predicate Within(at: real, from: Option<real>, to: Option<real>) {
    (from.Some? ==> from.value <= at) && (to.Some? ==> at <= to.value)
  }

  /** How many pings _pings_for_window selects; both ends are included. */
  function CountWithin(times: seq<real>, from: Option<real>, to: Option<real>): nat {
    if times == [] then 0
    else CountWithin(times[..|times| - 1], from, to) + (if Within(times[|times| - 1], from, to) then 1 else 0)
  }

  /** A leg's point_count: its window, thinned. */
  ghost function LegPoints(u: World, from: Option<real>, to: Option<real>): nat {
    |Thinned(CountWithin(PingTimes(u.events), from, to), MAX_PINGS_PER_LEG)|
  }

  /** total_points over the first i rows; began is the time of the start event. */
  ghost function HistoryPoints(u: World, rows: seq<Row>, i: nat, began: Option<real>): nat
    requires i <= |rows|
  {
    if i == 0 then 0
    else HistoryPoints(u, rows, i - 1, began)
         + (if rows[i - 1].located then LegPoints(u, ReadFrom(u, rows, i - 1, began), ArrivalAt(u, rows[i - 1])) else 0)
  }

  function RangeWithin(n: nat, a: nat, b: nat): set<nat> {
    set g | g in Range(0, n) && a <= g <= b
  }

  lemma RangeWithinNext(n: nat, a: nat, b: nat)
    ensures |RangeWithin(0, a, b)| == 0
    ensures |RangeWithin(n + 1, a, b)| == |RangeWithin(n, a, b)| + (if a <= n <= b then 1 else 0)
  {
    assert RangeWithin(0, a, b) == {};
    var s := RangeWithin(n, a, b);
    if a <= n <= b {
      assert RangeWithin(n + 1, a, b) == s + {n};
    } else {
      assert RangeWithin(n + 1, a, b) == s;
    }
  }

  lemma CountSnoc(times: seq<real>, at: real, from: Option<real>, to: Option<real>)
    ensures CountWithin(times + [at], from, to) == CountWithin(times, from, to) + (if Within(at, from, to) then 1 else 0)
  {
    assert (times + [at])[..|times|] == times;
  }

  lemma TicksNext(start: real, n: nat, step: real)
    ensures Ticks(start, 0, step) == [] && Ticks(start, n + 1, step) == Ticks(start, n, step) + [TickAt(start, n, step)]
  {
  }

  lemma {:induction false} CountTicks(start: real, n: nat, step: real, from: Option<real>, to: Option<real>, a: nat, b: nat)
    requires forall g: nat | g < n :: Within(TickAt(start, g, step), from, to) <==> a <= g <= b
    ensures CountWithin(Ticks(start, n, step), from, to) == |RangeWithin(n, a, b)|
  {
    hide TickAt, Within, Ticks, RangeWithin;
    if n == 0 {
      RangeWithinNext(0, a, b);
      TicksNext(start, 0, step);
    } else {
      CountTicks(start, n - 1, step, from, to, a, b);
      RangeWithinNext(n - 1, a, b);
      TicksNext(start, n - 1, step);
      CountSnoc(Ticks(start, n - 1, step), TickAt(start, n - 1, step), from, to);
    }
  }

  /** The window of leg k, counted on the recorded times. The start event is recorded no later than the first ping. */
  lemma WindowCount(legs: seq<nat>, k: nat, start: real, step: real, began: real)
    requires k < |legs| && step > 0.0 && began <= start
    ensures var from := if k == 0 then began else Arrival(legs, k, start, step);
      CountWithin(Ticks(start, Sum(legs), step), Some(from), Some(Arrival(legs, k + 1, start, step))) == |WindowPings(legs, k)|
  {
    hide TickAt, Sum, CountWithin;
    var n, a, b := Sum(legs), Before(legs, k), Before(legs, k) + legs[k];
    var from, to := if k == 0 then began else Arrival(legs, k, start, step), Arrival(legs, k + 1, start, step);
    BeforeNext(legs, k);
    FirstArrival(legs, start, step);
    NothingBefore(legs);
    forall g: nat | g < n ensures Within(TickAt(start, g, step), Some(from), Some(to)) <==> a <= g <= b {
      TickOrder(start, a, g, step);
      TickOrder(start, g, b, step);
    }
    CountTicks(start, n, step, Some(from), Some(to), a, b);
    assert RangeWithin(n, a, b) == WindowPings(legs, k);
  }

  lemma NothingBefore(legs: seq<nat>)
    ensures Before(legs, 0) == 0
  {
  }

  /** The pings of leg k that the history keeps. */
  ghost function Kept(legs: seq<nat>, k: nat): nat
    requires k < |legs|
  {
    |Thinned(legs[k] + (if k + 1 < |legs| then 1 else 0), MAX_PINGS_PER_LEG)|
  }

  ghost function KeptBefore(legs: seq<nat>, k: nat): nat
    requires k <= |legs|
  {
    if k == 0 then 0 else KeptBefore(legs, k - 1) + Kept(legs, k - 1)
  }

  lemma {:induction false} HistoryIsKept(w: World, rows: seq<Row>, reset: bool, lengths: seq<nat>, start: real, pace: Pace,
                                         began: real, i: nat)
    requires FreshlyDriven(w, rows, reset, lengths, start, pace) && DistinctRows(rows) && began <= start && i <= |rows|
    ensures LegsBefore(rows, lengths, i) <= |Legs(rows, lengths)|
    ensures HistoryPoints(Run(w, rows, reset, lengths, start, pace).0, rows, i, Some(began)) ==
      KeptBefore(Legs(rows, lengths), LegsBefore(rows, lengths, i))
  {
    hide FreshlyDriven, Run, Legs, PingTimes, TickAt, StepSeconds, Sum, LegsBefore, Arrival, Thinned, CountWithin, WindowPings;
    LengthsMatch(w, rows, reset, lengths, start, pace);
    if i == 0 {
      NoLegsYet(rows, lengths);
    } else {
      HistoryIsKept(w, rows, reset, lengths, start, pace, began, i - 1);
      LegOfRow(rows, lengths, i - 1);
      if rows[i - 1].located {
        var legs, k := Legs(rows, lengths), LegsBefore(rows, lengths, i - 1);
        FinishedDriveTimes(w, rows, reset, lengths, start, pace);
        ArrivalsOnRecord(w, rows, reset, lengths, start, pace, i - 1);
        ReadFromIs(w, rows, reset, lengths, start, pace, Some(began), i - 1);
        WindowCount(legs, k, start, StepSeconds(pace), began);
        DrivenLegsPositive(w, rows, reset, lengths, start, pace);
        WindowHoldsOneMore(legs, k);
      }
    }
  }

  lemma DrivenLegsPositive(w: World, rows: seq<Row>, reset: bool, lengths: seq<nat>, start: real, pace: Pace)
    requires FreshlyDriven(w, rows, reset, lengths, start, pace)
    ensures |lengths| == |rows| && forall k :: 0 <= k < |Legs(rows, lengths)| ==> Legs(rows, lengths)[k] >= 1
  {
    hide Legs, Run, DriveRows, PingTimes, HasPackages;
    FinishedLoop(w, rows, reset, lengths, start, pace);
    LegsPositive(rows, lengths);
  }

  /** The pings that thinning drops from leg k's window: those beyond 101. */
  function Dropped(legs: seq<nat>, k: nat): nat
    requires k < |legs|
  {
    var window := legs[k] + (if k + 1 < |legs| then 1 else 0);
    if window <= MAX_PINGS_PER_LEG + 1 then 0 else window - MAX_PINGS_PER_LEG - 1
  }

  function DroppedBefore(legs: seq<nat>, k: nat): (n: nat)
    requires k <= |legs|
    ensures n == 0 <==> forall j :: 0 <= j < k ==> Dropped(legs, j) == 0
  {
    if k == 0 then 0 else DroppedBefore(legs, k - 1) + Dropped(legs, k - 1)
  }

  /** The first k windows keep what was sent, one more for each leg but the last, less what thinning drops. */
  lemma {:induction false} KeptAgainstSent(legs: seq<nat>, k: nat)
    requires k <= |legs|
    ensures KeptBefore(legs, k) + DroppedBefore(legs, k) == Before(legs, k) + (if k < |legs| || k == 0 then k else k - 1)
  {
    hide Before;
    if k == 0 {
      NothingBefore(legs);
    } else {
      KeptAgainstSent(legs, k - 1);
      BeforeNext(legs, k - 1);
    }
  }

  /** total_points of a finished drive is the number of pings sent, plus one for every leg but the last, minus what
      thinning drops. So every boundary ping counts twice exactly when no window holds more than 101 pings, and the total
      is the number sent exactly when thinning drops as many as there are boundaries. */
  lemma HistoryCountsBoundariesTwice(w: World, rows: seq<Row>, reset: bool, lengths: seq<nat>, start: real, pace: Pace, began: real)
    requires FreshlyDriven(w, rows, reset, lengths, start, pace) && DistinctRows(rows) && began <= start
    ensures var u := Run(w, rows, reset, lengths, start, pace).0;
      var legs, sent := Legs(rows, lengths), |PingTimes(u.events)|;
      var total := HistoryPoints(u, rows, |rows|, Some(began));
      && (legs == [] ==> total == sent == 0)
      && (legs != [] ==> total + DroppedBefore(legs, |legs|) == sent + |legs| - 1)
      && (legs != [] ==> (total == sent + |legs| - 1 <==>
            forall k :: 0 <= k < |legs| ==> legs[k] + (if k + 1 < |legs| then 1 else 0) <= MAX_PINGS_PER_LEG + 1))
  {
    hide FreshlyDriven, Run, Legs, PingTimes, StepSeconds, LegsBefore, HistoryPoints, KeptBefore, Before, Ticks;
    LengthsMatch(w, rows, reset, lengths, start, pace);
    HistoryIsKept(w, rows, reset, lengths, start, pace, began, |rows|);
    AllLegs(rows, lengths);
    FinishedDriveTimes(w, rows, reset, lengths, start, pace);
    var legs := Legs(rows, lengths);
    WholeDrive(legs);
    KeptAgainstSent(legs, |legs|);
    assert forall k :: 0 <= k < |legs| ==>
      (Dropped(legs, k) == 0 <==> legs[k] + (if k + 1 < |legs| then 1 else 0) <= MAX_PINGS_PER_LEG + 1);
  }

  /** With at most 100 pings a leg, as the default 8, every boundary is counted twice. */
  lemma ShortLegsCountTwice(w: World, rows: seq<Row>, reset: bool, lengths: seq<nat>, start: real, pace: Pace, began: real)
    requires FreshlyDriven(w, rows, reset, lengths, start, pace) && DistinctRows(rows) && began <= start
    requires pace.pings <= MAX_PINGS_PER_LEG && forall i :: 0 <= i < |rows| ==> lengths[i] <= pace.pings
    ensures var u := Run(w, rows, reset, lengths, start, pace).0;
      Legs(rows, lengths) != [] ==>
        HistoryPoints(u, rows, |rows|, Some(began)) == |PingTimes(u.events)| + |Legs(rows, lengths)| - 1
  {
    hide FreshlyDriven, Run, Legs, PingTimes, StepSeconds, HistoryPoints, DroppedBefore;
    LengthsMatch(w, rows, reset, lengths, start, pace);
    HistoryCountsBoundariesTwice(w, rows, reset, lengths, start, pace, began);
    LegsAtMost(rows, lengths, pace.pings);
  }

  lemma {:induction false} LegsAtMost(rows: seq<Row>, lengths: seq<nat>, n: nat)
    requires |lengths| == |rows| && forall i :: 0 <= i < |rows| ==> lengths[i] <= n
    ensures forall k :: 0 <= k < |Legs(rows, lengths)| ==> Legs(rows, lengths)[k] <= n
  {
    if rows != [] {
      LegsAtMost(rows[..|rows| - 1], lengths[..|rows| - 1], n);
    }
  }

  /** Two legs of 150 pings: the history has 202 of the 300. */
  lemma LongLegsAreThinned()
    ensures KeptBefore([150, 150], 2) == 202 && Before([150, 150], 2) == 300
  {
    assert Kept([150, 150], 0) == 101 && Kept([150, 150], 1) == 101;
    assert KeptBefore([150, 150], 1) == 101;
    BeforeNext([150, 150], 0);
    BeforeNext([150, 150], 1);
    NothingBefore([150, 150]);
  }
}
