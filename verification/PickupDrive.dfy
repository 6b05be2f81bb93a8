/** The simulated pickup drive of scripts/run_demo_pickup_drive.py, with the DriverService calls it makes. */
module PickupDrive {
  import opened Outcomes

  type Id = nat

  const DEMO_DRIVER: Id := 0

  const ASSIGNED := "ASSIGNED"
  const ACTIVE := "ACTIVE"
  const COMPLETED := "COMPLETED"
  const READY := "READY"
  const ARRIVED := "ARRIVED"
  const ENROUTE_PICKUP := "ENROUTE_PICKUP"
  const LOADED := "LOADED_FOR_DELIVERY"

  datatype Stop = Stop(status: string, arrival: Option<real>)
  datatype Package = Package(order: Id, status: string)

  /** Rows of route_events for the route: location pings by simulated time, and status events. */
  datatype Event = Ping(at: real) | Status(kind: string)

  /** The demo route and what hangs on it. */
  datatype World = World(
    routeStatus: string, driver: Option<Id>, driveSeconds: Option<real>,
    stops: map<Id, Stop>, orders: map<Id, string>, packages: map<Id, Package>, events: seq<Event>)

  /** One joined row of the load query, in sequence order: the stop, its order, and whether the order's pickup address
      has coordinates. */
  datatype Row = Row(stop: Id, order: Id, located: bool)

  predicate Joined(w: World, rows: seq<Row>) {
    && (forall i :: 0 <= i < |rows| ==> rows[i].stop in w.stops && rows[i].order in w.orders)
    && (forall i, j :: 0 <= i < j < |rows| ==> rows[i].stop != rows[j].stop)
  }

  // ---- Reset ----

  function WithStatus(packages: map<Id, Package>, order: Id, status: string): map<Id, Package> {
    map p | p in packages :: if packages[p].order == order then packages[p].(status := status) else packages[p]
  }

  function ResetRow(w: World, row: Row): World {
    w.(stops := w.stops[row.stop := Stop(READY, None)],
       packages := WithStatus(w.packages, row.order, ENROUTE_PICKUP),
       orders := w.orders[row.order := ENROUTE_PICKUP])
  }

  function ResetRows(w: World, rows: seq<Row>): World {
    if rows == [] then w else ResetRow(ResetRows(w, rows[..|rows| - 1]), rows[|rows| - 1])
  }

  /** _reset_route */
  function Reset(w: World, rows: seq<Row>): World {
    ResetRows(w.(events := []), rows).(routeStatus := ASSIGNED, driveSeconds := None)
  }

  // ---- Driving ----

  predicate HasPackages(packages: map<Id, Package>, order: Id) {
    exists p :: p in packages && packages[p].order == order
  }

  /** Seconds spent on a leg, and its number of pings; the command line raises the latter to at least 2. */
  datatype PaceOptions = PaceOptions(wallSeconds: real, pings: nat)

  type Pace = p: PaceOptions | p.pings >= 2 witness PaceOptions(0.0, 2)

  /** Seconds from one ping to the next. */
  function StepSeconds(pace: Pace): (step: real)
    ensures step >= 1.0 && (pace.wallSeconds <= pace.pings as real ==> step == 1.0)
    ensures pace.wallSeconds >= pace.pings as real ==> step * pace.pings as real == pace.wallSeconds
  {
    if pace.wallSeconds / pace.pings as real < 1.0 then 1.0 else pace.wallSeconds / pace.pings as real
  }

  /** The time i steps after the start. */
  function TickAt(start: real, i: nat, step: real): real {
    start + i as real * step
  }

  function Pings(start: real, n: nat, step: real): (s: seq<Event>)
    ensures |s| == n
  {
    if n == 0 then [] else Pings(start, n - 1, step) + [Ping(TickAt(start, n - 1, step))]
  }

  function StatusEvents(): seq<Event> {
    [Status("STOP_ARRIVED"), Status("STOP_COMPLETED")]
  }

  /** _drive_one_leg and _arrive_collect_complete on a path of n points. None when they raise: an empty path leaves no
      last position to report, and an order without packages cannot be collected. */
  function Leg(w: World, row: Row, start: real, n: nat, step: real): Option<World> {
    if n == 0 || !HasPackages(w.packages, row.order) then None
    else Some(w.(
      stops := w.stops[row.stop := Stop(COMPLETED, Some(TickAt(start, n, step)))],
      packages := WithStatus(w.packages, row.order, LOADED),
      events := w.events + Pings(start, n, step) + StatusEvents()))
  }

  /** The world as last committed, the simulated clock, and the row that raised, if one did. */
  datatype Progress = Progress(world: World, clock: real, stuck: Option<nat>)

  /** The loop over rows; lengths[i] is the number of points of row i's path, as Downsampling.DriveLegPath gives it. */
  function DriveRows(w: World, rows: seq<Row>, lengths: seq<nat>, start: real, step: real): Progress
    requires |lengths| == |rows|
  {
    if rows == [] then Progress(w, start, None)
    else
      var k := |rows| - 1;
      var p := DriveRows(w, rows[..k], lengths[..k], start, step);
      if p.stuck.Some? || !rows[k].located then p
      else match Leg(p.world, rows[k], p.clock, lengths[k], step)
        case None => p.(stuck := Some(k))
        case Some(u) => Progress(u, TickAt(p.clock, lengths[k], step), None)
  }

  datatype Outcome = Finished | NoStops | AlreadyCompleted | NotFound | Failed(row: nat)

  function Started(w: World): World {
    w.(routeStatus := ACTIVE, events := w.events + [Status("ROUTE_STARTED")])
  }

  function Prepared(w: World, rows: seq<Row>, reset: bool): World {
    if reset then Reset(w, rows) else w
  }

  /** _run: the committed world and how the run ended. */
  function Run(w: World, rows: seq<Row>, reset: bool, lengths: seq<nat>, start: real, pace: Pace): (World, Outcome)
    requires |lengths| == |rows|
  {
    if rows == [] then (w, NoStops)
    else
      var a := Prepared(w, rows, reset);
      if a.routeStatus == COMPLETED then (a, AlreadyCompleted)
      else if a.driver != Some(DEMO_DRIVER) then (a, NotFound)
      else
        var p := DriveRows(Started(a), rows, lengths, start, StepSeconds(pace));
        if p.stuck.Some? then (p.world, Failed(p.stuck.value))
        else (p.world.(routeStatus := COMPLETED, driveSeconds := Some(p.clock - start),
                       events := p.world.events + [Status("ROUTE_COMPLETED")]), Finished)
  }

  // ---- What reset does ----

  predicate IsStopOf(rows: seq<Row>, stop: Id) {
    exists i :: 0 <= i < |rows| && rows[i].stop == stop
  }

  predicate IsOrderOf(rows: seq<Row>, order: Id) {
    exists i :: 0 <= i < |rows| && rows[i].order == order
  }

  ghost predicate ResetFrom(w: World, u: World, rows: seq<Row>) {
    && u.driver == w.driver && u.packages.Keys == w.packages.Keys
    && (forall s :: s in u.stops <==> s in w.stops || IsStopOf(rows, s))
    && (forall s :: s in u.stops ==> u.stops[s] == if IsStopOf(rows, s) then Stop(READY, None) else w.stops[s])
    && (forall o :: o in u.orders <==> o in w.orders || IsOrderOf(rows, o))
    && (forall o :: o in u.orders ==> u.orders[o] == if IsOrderOf(rows, o) then ENROUTE_PICKUP else w.orders[o])
    && (forall p | p in w.packages ::
          u.packages[p] == if IsOrderOf(rows, w.packages[p].order) then w.packages[p].(status := ENROUTE_PICKUP) else w.packages[p])
  }

  lemma PrefixMembers(rows: seq<Row>)
    requires rows != []
    ensures forall s :: IsStopOf(rows, s) <==> IsStopOf(rows[..|rows| - 1], s) || s == rows[|rows| - 1].stop
    ensures forall o :: IsOrderOf(rows, o) <==> IsOrderOf(rows[..|rows| - 1], o) || o == rows[|rows| - 1].order
  {
  }

  lemma {:induction false} ResetRowsAre(w: World, rows: seq<Row>)
    ensures ResetFrom(w, ResetRows(w, rows), rows)
    ensures ResetRows(w, rows).events == w.events
  {
    if rows != [] {
      var init, row := rows[..|rows| - 1], rows[|rows| - 1];
      ResetRowsAre(w, init);
      PrefixMembers(rows);
      ResetOne(w, ResetRows(w, init), init, row, rows);
    }
  }

  lemma ResetOne(w: World, u: World, init: seq<Row>, row: Row, rows: seq<Row>)
    requires ResetFrom(w, u, init)
    requires forall s :: IsStopOf(rows, s) <==> IsStopOf(init, s) || s == row.stop
    requires forall o :: IsOrderOf(rows, o) <==> IsOrderOf(init, o) || o == row.order
    ensures ResetFrom(w, ResetRow(u, row), rows)
  {
    hide IsStopOf, IsOrderOf;
  }

  /** A reset puts the route back to ASSIGNED with no events, its rows' stops to READY and their orders and packages to
      ENROUTE_PICKUP, and touches nothing else. */
  lemma ResetIs(w: World, rows: seq<Row>)
    ensures var u := Reset(w, rows);
      ResetFrom(w, u, rows) && u.routeStatus == ASSIGNED && u.events == [] && u.driveSeconds.None?
  {
    ResetRowsAre(w.(events := []), rows);
  }

  lemma ResetIdempotent(w: World, rows: seq<Row>)
    ensures Reset(Reset(w, rows), rows) == Reset(w, rows)
  {
    hide IsStopOf, IsOrderOf, Reset;
    var u := Reset(w, rows);
    var v := Reset(u, rows);
    ResetIs(w, rows);
    ResetIs(u, rows);
    assert v.stops == u.stops;
    assert v.orders == u.orders;
    assert v.packages == u.packages;
  }

  // ---- What a drive does ----

  /** Row i is driven: it has coordinates. */
  predicate Drives(rows: seq<Row>, stop: Id) {
    exists i :: 0 <= i < |rows| && rows[i].located && rows[i].stop == stop
  }

  predicate Collects(rows: seq<Row>, order: Id) {
    exists i :: 0 <= i < |rows| && rows[i].located && rows[i].order == order
  }

  /** Every driven row has a path and an order with packages. */
  predicate Passable(packages: map<Id, Package>, rows: seq<Row>, lengths: seq<nat>)
    requires |lengths| == |rows|
  {
    forall i | 0 <= i < |rows| && rows[i].located :: lengths[i] >= 1 && HasPackages(packages, rows[i].order)
  }

  /** u is w after driving the rows: their located stops completed and their packages loaded. */
  ghost predicate DrivenFrom(w: World, u: World, rows: seq<Row>) {
    && u.driver == w.driver && u.routeStatus == w.routeStatus && u.orders == w.orders
    && u.driveSeconds == w.driveSeconds && u.packages.Keys == w.packages.Keys
    && (forall s :: s in u.stops <==> s in w.stops || Drives(rows, s))
    && (forall s :: s in u.stops ==>
          if Drives(rows, s) then u.stops[s].status == COMPLETED && u.stops[s].arrival.Some? else u.stops[s] == w.stops[s])
    && (forall p | p in w.packages ::
          u.packages[p] == if Collects(rows, w.packages[p].order) then w.packages[p].(status := LOADED) else w.packages[p])
  }

  lemma PrefixDriven(rows: seq<Row>)
    requires rows != []
    ensures var init, row := rows[..|rows| - 1], rows[|rows| - 1];
      && (forall s :: Drives(rows, s) <==> Drives(init, s) || (row.located && s == row.stop))
      && (forall o :: Collects(rows, o) <==> Collects(init, o) || (row.located && o == row.order))
  {
  }

  lemma DrivenKeepsPackages(w: World, u: World, rows: seq<Row>, o: Id)
    requires DrivenFrom(w, u, rows)
    ensures HasPackages(u.packages, o) <==> HasPackages(w.packages, o)
  {
  }

  lemma DriveOne(w: World, u: World, init: seq<Row>, row: Row, rows: seq<Row>, start: real, n: nat, step: real)
    requires DrivenFrom(w, u, init) && row.located && Leg(u, row, start, n, step).Some?
    requires forall s :: Drives(rows, s) <==> Drives(init, s) || s == row.stop
    requires forall o :: Collects(rows, o) <==> Collects(init, o) || o == row.order
    ensures DrivenFrom(w, Leg(u, row, start, n, step).value, rows)
  {
    hide Drives, Collects, Pings, HasPackages;
  }

  /** The loop gets through the rows before the first that cannot be driven, and stops there. */
  lemma {:induction false} DriveRowsAre(w: World, rows: seq<Row>, lengths: seq<nat>, start: real, step: real)
    requires |lengths| == |rows|
    ensures var p := DriveRows(w, rows, lengths, start, step);
      && (p.stuck.None? <==> Passable(w.packages, rows, lengths))
      && (p.stuck.Some? ==>
            && p.stuck.value < |rows| && rows[p.stuck.value].located
            && Passable(w.packages, rows[..p.stuck.value], lengths[..p.stuck.value])
            && (lengths[p.stuck.value] == 0 || !HasPackages(w.packages, rows[p.stuck.value].order)))
      && DrivenFrom(w, p.world, if p.stuck.Some? then rows[..p.stuck.value] else rows)
  {
    hide Drives, Collects, HasPackages, Pings;
    if rows != [] {
      var k := |rows| - 1;
      var init, row := rows[..k], rows[k];
      var p := DriveRows(w, init, lengths[..k], start, step);
      DriveRowsAre(w, init, lengths[..k], start, step);
      PrefixDriven(rows);
      assert Passable(w.packages, rows, lengths) <==>
        Passable(w.packages, init, lengths[..k]) && (row.located ==> lengths[k] >= 1 && HasPackages(w.packages, row.order));
      if p.stuck.Some? {
        assert init[..p.stuck.value] == rows[..p.stuck.value] && lengths[..k][..p.stuck.value] == lengths[..p.stuck.value];
      } else if row.located {
        DrivenKeepsPackages(w, p.world, init, row.order);
        if Leg(p.world, row, p.clock, lengths[k], step).Some? {
          DriveOne(w, p.world, init, row, rows, p.clock, lengths[k], step);
        }
      }
    } else {
      NothingDriven(w);
    }
  }

  lemma NothingDriven(w: World)
    ensures DrivenFrom(w, w, [])
  {
  }

  lemma ResetKeepsPackages(w: World, u: World, rows: seq<Row>, o: Id)
    requires ResetFrom(w, u, rows)
    ensures HasPackages(u.packages, o) <==> HasPackages(w.packages, o)
  {
  }

  lemma DistinctStops(w: World, rows: seq<Row>, i: nat)
    requires Joined(w, rows) && i < |rows|
    ensures IsStopOf(rows, rows[i].stop)
    ensures Drives(rows, rows[i].stop) <==> rows[i].located
  {
  }

  /** The package statuses a finished drive leaves, whatever they were before. */
  function FinalStatus(rows: seq<Row>, before: Package): string {
    if Collects(rows, before.order) then LOADED else if IsOrderOf(rows, before.order) then ENROUTE_PICKUP else before.status
  }

  /** From any prior state, reset and drive finishes exactly when the route is the demo driver's and every stop with
      coordinates has a path and an order with packages. Then exactly those stops are COMPLETED, the others of the route
      READY, the collected packages loaded and the rest of the route's packages en route. */
  lemma ResetThenDrive(w: World, rows: seq<Row>, lengths: seq<nat>, start: real, pace: Pace)
    requires |lengths| == |rows| && rows != [] && Joined(w, rows)
    ensures var (u, outcome) := Run(w, rows, true, lengths, start, pace);
      && (outcome == Finished <==> w.driver == Some(DEMO_DRIVER) && Passable(w.packages, rows, lengths))
      && (outcome == Finished ==>
            && u.routeStatus == COMPLETED && u.stops.Keys == w.stops.Keys
            && (forall i :: 0 <= i < |rows| ==>
                  u.stops[rows[i].stop].status == if rows[i].located then COMPLETED else READY)
            && (forall s :: s in w.stops && !IsStopOf(rows, s) ==> u.stops[s] == w.stops[s])
            && u.packages.Keys == w.packages.Keys
            && (forall p :: p in w.packages ==> u.packages[p] == Package(w.packages[p].order, FinalStatus(rows, w.packages[p]))))
  {
    hide IsStopOf, IsOrderOf, Drives, Collects, Reset, DriveRows, HasPackages, StepSeconds, ResetFrom, DrivenFrom, Joined;
    var a := Reset(w, rows);
    ResetIs(w, rows);
    assert a.driver == w.driver && a.packages.Keys == w.packages.Keys by { ResetFrame(w, a, rows); }
    var b := Started(a);
    forall o ensures HasPackages(b.packages, o) <==> HasPackages(w.packages, o) {
      ResetKeepsPackages(w, a, rows, o);
    }
    DriveRowsAre(b, rows, lengths, start, StepSeconds(pace));
    var p := DriveRows(b, rows, lengths, start, StepSeconds(pace));
    if p.stuck.None? {
      StopsOfFinished(w, a, p.world, rows);
      PackagesOfFinished(w, a, p.world, rows);
    }
  }

  lemma ResetFrame(w: World, u: World, rows: seq<Row>)
    requires ResetFrom(w, u, rows)
    ensures u.driver == w.driver && u.packages.Keys == w.packages.Keys
  {
  }

  lemma StopsOfFinished(w: World, a: World, u: World, rows: seq<Row>)
    requires Joined(w, rows) && ResetFrom(w, a, rows) && DrivenFrom(Started(a), u, rows)
    ensures u.stops.Keys == w.stops.Keys
    ensures forall i :: 0 <= i < |rows| ==> u.stops[rows[i].stop].status == if rows[i].located then COMPLETED else READY
    ensures forall s :: s in w.stops && !IsStopOf(rows, s) ==> u.stops[s] == w.stops[s]
  {
    hide IsStopOf, IsOrderOf, Drives, Collects;
    forall i | 0 <= i < |rows|
      ensures IsStopOf(rows, rows[i].stop) && (Drives(rows, rows[i].stop) <==> rows[i].located)
    {
      DistinctStops(w, rows, i);
    }
    StopsOfRows(w, rows);
  }

  lemma PackagesOfFinished(w: World, a: World, u: World, rows: seq<Row>)
    requires Joined(w, rows) && ResetFrom(w, a, rows) && DrivenFrom(Started(a), u, rows)
    ensures u.packages.Keys == w.packages.Keys
    ensures forall p :: p in w.packages ==> u.packages[p] == Package(w.packages[p].order, FinalStatus(rows, w.packages[p]))
  {
    hide IsStopOf, IsOrderOf, Drives, Collects;
    StopsOfRows(w, rows);
  }

  lemma StopsOfRows(w: World, rows: seq<Row>)
    requires Joined(w, rows)
    ensures forall s :: Drives(rows, s) ==> IsStopOf(rows, s)
    ensures forall s :: IsStopOf(rows, s) ==> s in w.stops
    ensures forall o :: Collects(rows, o) ==> IsOrderOf(rows, o)
  {
  }

  lemma {:induction false} DriveKeepsEvents(w: World, rows: seq<Row>, lengths: seq<nat>, start: real, step: real)
    requires |lengths| == |rows|
    ensures w.events <= DriveRows(w, rows, lengths, start, step).world.events
  {
    hide Pings, StatusEvents, HasPackages, TickAt, WithStatus;
    if rows != [] {
      var k := |rows| - 1;
      DriveKeepsEvents(w, rows[..k], lengths[..k], start, step);
    }
  }

  /** Without a reset, a run changes nothing exactly when there is no stop to drive, the route is completed already or
      is not the demo driver's: any other run leaves at least its start on record. */
  lemma RunChangesNothingExactly(w: World, rows: seq<Row>, lengths: seq<nat>, start: real, pace: Pace)
    requires |lengths| == |rows|
    ensures Run(w, rows, false, lengths, start, pace).0 == w <==>
      rows == [] || w.routeStatus == COMPLETED || w.driver != Some(DEMO_DRIVER)
  {
    hide DriveRows, StepSeconds;
    DriveKeepsEvents(Started(w), rows, lengths, start, StepSeconds(pace));
  }

  /** A run finishes exactly when there are stops, the route is the demo driver's and not completed, or reset, and every
      stop with coordinates can be driven; the driven stops and packages are then as after the rows, no others changed. */
  lemma RunFinishesExactly(w: World, rows: seq<Row>, reset: bool, lengths: seq<nat>, start: real, pace: Pace)
    requires |lengths| == |rows|
    ensures var (u, outcome) := Run(w, rows, reset, lengths, start, pace);
      && (outcome == Finished <==>
            rows != [] && (reset || w.routeStatus != COMPLETED) && w.driver == Some(DEMO_DRIVER)
            && forall i | 0 <= i < |rows| && rows[i].located ::
                 lengths[i] >= 1 && exists p :: p in w.packages && w.packages[p].order == rows[i].order)
      && (outcome == Finished ==>
            && u.routeStatus == COMPLETED && u.driver == w.driver
            && DrivenFrom(Prepared(w, rows, reset),
                          u.(routeStatus := Prepared(w, rows, reset).routeStatus,
                             driveSeconds := Prepared(w, rows, reset).driveSeconds), rows))
  {
    hide DriveRows, Reset, StepSeconds, HasPackages, Drives, Collects, ResetFrom;
    var a := Prepared(w, rows, reset);
    ResetIs(w, rows);
    assert a.driver == w.driver by { ResetFrame(w, Reset(w, rows), rows); }
    forall o ensures HasPackages(a.packages, o) <==> HasPackages(w.packages, o) {
      PreparedPackages(w, rows, reset, o);
    }
    DriveRowsAre(Started(a), rows, lengths, start, StepSeconds(pace));
    PassableMeans(w.packages, rows, lengths);
  }

  lemma PassableMeans(packages: map<Id, Package>, rows: seq<Row>, lengths: seq<nat>)
    requires |lengths| == |rows|
    ensures Passable(packages, rows, lengths) <==>
      forall i | 0 <= i < |rows| && rows[i].located ::
        lengths[i] >= 1 && exists p :: p in packages && packages[p].order == rows[i].order
  {
  }

  /** After a finished drive, driving again without a reset changes nothing. */
  lemma FinishedThenRefused(w: World, rows: seq<Row>, reset: bool, lengths: seq<nat>, start: real, pace: Pace,
                            lengths2: seq<nat>, start2: real, pace2: Pace)
    requires |lengths| == |rows| && |lengths2| == |rows| && Run(w, rows, reset, lengths, start, pace).1 == Finished
    ensures var u := Run(w, rows, reset, lengths, start, pace).0;
      Run(u, rows, false, lengths2, start2, pace2) == (u, AlreadyCompleted)
  {
    hide DriveRows, Reset, StepSeconds;
  }

  lemma PreparedPackages(w: World, rows: seq<Row>, reset: bool, o: Id)
    ensures HasPackages(Prepared(w, rows, reset).packages, o) <==> HasPackages(w.packages, o)
  {
    hide HasPackages, Reset;
    if reset {
      ResetIs(w, rows);
      ResetKeepsPackages(w, Reset(w, rows), rows, o);
    }
  }

  /** A run that raises on a row leaves the route ACTIVE with exactly the earlier rows driven; the failed row's pings
      and arrival are rolled back. */
  lemma FailedRunKeepsEarlierRows(w: World, rows: seq<Row>, reset: bool, lengths: seq<nat>, start: real, pace: Pace)
    requires |lengths| == |rows| && Run(w, rows, reset, lengths, start, pace).1.Failed?
    ensures var (u, outcome) := Run(w, rows, reset, lengths, start, pace);
      && outcome.row < |rows| && rows[outcome.row].located && u.routeStatus == ACTIVE
      && (lengths[outcome.row] == 0 || !HasPackages(w.packages, rows[outcome.row].order))
      && DrivenFrom(Started(Prepared(w, rows, reset)), u, rows[..outcome.row])
  {
    hide DriveRows, DrivenFrom, Passable, HasPackages, Reset, Prepared, StepSeconds;
    var b := Started(Prepared(w, rows, reset));
    var p := DriveRows(b, rows, lengths, start, StepSeconds(pace));
    DriveRowsAre(b, rows, lengths, start, StepSeconds(pace));
    DrivenKeepsStatus(b, p.world, rows[..p.stuck.value]);
    PreparedPackages(w, rows, reset, rows[p.stuck.value].order);
  }

  lemma DrivenKeepsStatus(w: World, u: World, rows: seq<Row>)
    requires DrivenFrom(w, u, rows)
    ensures u.routeStatus == w.routeStatus
  {
  }

  // ---- Pings over a whole drive ----

  /** The times of the recorded pings, in order. */
  function PingTimes(events: seq<Event>): seq<real> {
    if events == [] then []
    else PingTimes(events[..|events| - 1]) + (match events[|events| - 1] case Ping(at) => [at] case Status(_) => [])
  }

  /** Path lengths of the driven rows. */
  function Legs(rows: seq<Row>, lengths: seq<nat>): seq<nat>
    requires |lengths| == |rows|
  {
    if rows == [] then []
    else Legs(rows[..|rows| - 1], lengths[..|rows| - 1])
         + (if rows[|rows| - 1].located then [lengths[|rows| - 1]] else [])
  }

  function Sum(legs: seq<nat>): nat {
    if legs == [] then 0 else Sum(legs[..|legs| - 1]) + legs[|legs| - 1]
  }

  /** The first n ticks. */
  function Ticks(start: real, n: nat, step: real): (s: seq<real>)
    ensures |s| == n && forall i :: 0 <= i < n ==> s[i] == TickAt(start, i, step)
  {
    if n == 0 then [] else Ticks(start, n - 1, step) + [TickAt(start, n - 1, step)]
  }

  lemma TickShift(start: real, m: nat, i: nat, step: real)
    ensures TickAt(TickAt(start, m, step), i, step) == TickAt(start, m + i, step)
  {
  }

  lemma {:induction false} PingTimesAppend(a: seq<Event>, b: seq<Event>)
    ensures PingTimes(a + b) == PingTimes(a) + PingTimes(b)
  {
    if b == [] {
      assert a + b == a;
    } else {
      PingTimesAppend(a, b[..|b| - 1]);
      assert (a + b)[..|a + b| - 1] == a + b[..|b| - 1];
    }
  }

  lemma {:induction false} PingTimesOfPings(start: real, n: nat, step: real)
    ensures PingTimes(Pings(start, n, step)) == Ticks(start, n, step)
  {
    hide TickAt;
    if n > 0 {
      PingTimesOfPings(start, n - 1, step);
      assert Pings(start, n, step)[..n - 1] == Pings(start, n - 1, step);
    }
  }

  lemma {:induction false} TicksContinue(start: real, m: nat, n: nat, step: real)
    ensures Ticks(start, m, step) + Ticks(TickAt(start, m, step), n, step) == Ticks(start, m + n, step)
  {
    hide TickAt;
    if n > 0 {
      TicksContinue(start, m, n - 1, step);
      TickShift(start, m, n - 1, step);
    }
  }

  lemma StatusEventsHaveNoPings()
    ensures PingTimes(StatusEvents()) == []
  {
  }

  lemma LegPings(events: seq<Event>, start: real, n: nat, step: real)
    ensures PingTimes(events + Pings(start, n, step) + StatusEvents()) == PingTimes(events) + Ticks(start, n, step)
  {
    hide Pings, StatusEvents, Ticks, TickAt, PingTimes;
    PingTimesAppend(events + Pings(start, n, step), StatusEvents());
    PingTimesAppend(events, Pings(start, n, step));
    PingTimesOfPings(start, n, step);
    StatusEventsHaveNoPings();
  }

  lemma SumSnoc(legs: seq<nat>, n: nat)
    ensures Sum(legs + [n]) == Sum(legs) + n
  {
  }

  lemma LegsStep(rows: seq<Row>, lengths: seq<nat>)
    requires |lengths| == |rows| && rows != []
    ensures var k := |rows| - 1;
      Sum(Legs(rows, lengths)) == Sum(Legs(rows[..k], lengths[..k])) + (if rows[k].located then lengths[k] else 0)
  {
    hide Sum;
    var k := |rows| - 1;
    var before := Legs(rows[..k], lengths[..k]);
    if rows[k].located {
      SumSnoc(before, lengths[k]);
    } else {
      assert before + [] == before;
    }
  }

  /** Over any number of legs of any length, the pings tick on from the start one step apart, across leg boundaries,
      and the clock ends one step after the last. */
  lemma {:induction false} DriveTicks(w: World, rows: seq<Row>, lengths: seq<nat>, start: real, step: real)
    requires |lengths| == |rows| && DriveRows(w, rows, lengths, start, step).stuck.None?
    ensures var p := DriveRows(w, rows, lengths, start, step);
      var n := Sum(Legs(rows, lengths));
      p.clock == TickAt(start, n, step) && PingTimes(p.world.events) == PingTimes(w.events) + Ticks(start, n, step)
  {
    hide Pings, StatusEvents, Ticks, HasPackages, TickAt, Legs, PingTimes;
    if rows == [] {
      assert Ticks(start, 0, step) == [];
      NoLegs(start, step);
    } else {
      var k := |rows| - 1;
      var p := DriveRows(w, rows[..k], lengths[..k], start, step);
      DriveTicks(w, rows[..k], lengths[..k], start, step);
      LegsStep(rows, lengths);
      if rows[k].located {
        var m, n := Sum(Legs(rows[..k], lengths[..k])), lengths[k];
        LegPings(p.world.events, p.clock, n, step);
        TicksContinue(start, m, n, step);
        TickShift(start, m, n, step);
      }
    }
  }

  lemma NoLegs(start: real, step: real)
    ensures Legs([], []) == [] && TickAt(start, 0, step) == start
  {
  }

  lemma TicksApart(start: real, n: nat, step: real)
    requires step >= 1.0
    ensures forall i, j :: 0 <= i < j < n ==> Ticks(start, n, step)[j] - Ticks(start, n, step)[i] >= (j - i) as real
  {
  }

  lemma StatusAddsNoPing(events: seq<Event>, kind: string)
    ensures PingTimes(events + [Status(kind)]) == PingTimes(events)
  {
  }

  lemma TicksTake(start: real, n: nat, step: real)
    ensures TickAt(start, n, step) - start == n as real * step
  {
  }

  lemma NoPings()
    ensures PingTimes([]) == []
  {
  }

  /** The run finishes, on a route that has no pings yet. */
  predicate FreshlyDriven(w: World, rows: seq<Row>, reset: bool, lengths: seq<nat>, start: real, pace: Pace) {
    && |lengths| == |rows| && Run(w, rows, reset, lengths, start, pace).1 == Finished
    && (reset || PingTimes(w.events) == [])
  }

  /** The loop behind a finished run. */
  lemma FinishedLoop(w: World, rows: seq<Row>, reset: bool, lengths: seq<nat>, start: real, pace: Pace)
    requires FreshlyDriven(w, rows, reset, lengths, start, pace)
    ensures var u := Run(w, rows, reset, lengths, start, pace).0;
      var b := Started(Prepared(w, rows, reset));
      var p := DriveRows(b, rows, lengths, start, StepSeconds(pace));
      && p.stuck.None? && u.stops == p.world.stops && u.driveSeconds == Some(p.clock - start)
      && PingTimes(b.events) == [] && PingTimes(u.events) == PingTimes(p.world.events)
      && Passable(b.packages, rows, lengths)
  {
    hide DriveRows, Reset, PingTimes, StepSeconds, Passable, DrivenFrom;
    var a := Prepared(w, rows, reset);
    var p := DriveRows(Started(a), rows, lengths, start, StepSeconds(pace));
    ResetIs(w, rows);
    NoPings();
    StatusAddsNoPing(a.events, "ROUTE_STARTED");
    StatusAddsNoPing(p.world.events, "ROUTE_COMPLETED");
    DriveRowsAre(Started(a), rows, lengths, start, StepSeconds(pace));
  }

  /** A finished drive takes exactly its pings times its step, and its pings strictly increase, at least a second apart. */
  lemma FinishedDriveTimes(w: World, rows: seq<Row>, reset: bool, lengths: seq<nat>, start: real, pace: Pace)
    requires FreshlyDriven(w, rows, reset, lengths, start, pace)
    ensures var u := Run(w, rows, reset, lengths, start, pace).0;
      var n, step := Sum(Legs(rows, lengths)), StepSeconds(pace);
      && u.driveSeconds.Some? && u.driveSeconds.value == n as real * step
      && PingTimes(u.events) == Ticks(start, n, step)
      && (forall i, j :: 0 <= i < j < n ==> Ticks(start, n, step)[j] - Ticks(start, n, step)[i] >= (j - i) as real)
  {
    hide DriveRows, Run, Legs, PingTimes, Ticks, TickAt, Sum, StepSeconds, Passable;
    var b := Started(Prepared(w, rows, reset));
    var n, step := Sum(Legs(rows, lengths)), StepSeconds(pace);
    FinishedLoop(w, rows, reset, lengths, start, pace);
    DriveTicks(b, rows, lengths, start, step);
    TicksTake(start, n, step);
    TicksApart(start, n, step);
  }

  // ---- The other events of a drive ----

  /** The kinds of the status events, in order. */
  function Kinds(events: seq<Event>): seq<string> {
    if events == [] then []
    else Kinds(events[..|events| - 1]) + (match events[|events| - 1] case Ping(_) => [] case Status(kind) => [kind])
  }

  /** An arrival and a completion for each of n stops. */
  function StopKinds(n: nat): seq<string> {
    if n == 0 then [] else StopKinds(n - 1) + ["STOP_ARRIVED", "STOP_COMPLETED"]
  }

  lemma {:induction false} KindsAppend(a: seq<Event>, b: seq<Event>)
    ensures Kinds(a + b) == Kinds(a) + Kinds(b)
  {
    if b == [] {
      assert a + b == a;
    } else {
      KindsAppend(a, b[..|b| - 1]);
      assert (a + b)[..|a + b| - 1] == a + b[..|b| - 1];
    }
  }

  lemma {:induction false} PingsHaveNoKinds(start: real, n: nat, step: real)
    ensures Kinds(Pings(start, n, step)) == []
  {
    hide TickAt;
    if n > 0 {
      PingsHaveNoKinds(start, n - 1, step);
      assert Pings(start, n, step)[..n - 1] == Pings(start, n - 1, step);
    }
  }

  lemma OneKind(kind: string)
    ensures Kinds([]) == [] && Kinds([Status(kind)]) == [kind]
  {
    assert [Status(kind)][..0] == [];
  }

  lemma LegKinds(events: seq<Event>, start: real, n: nat, step: real)
    ensures Kinds(events + Pings(start, n, step) + StatusEvents()) == Kinds(events) + ["STOP_ARRIVED", "STOP_COMPLETED"]
  {
    hide Pings, Kinds;
    KindsAppend(events + Pings(start, n, step), StatusEvents());
    KindsAppend(events, Pings(start, n, step));
    PingsHaveNoKinds(start, n, step);
    KindsAppend([Status("STOP_ARRIVED")], [Status("STOP_COMPLETED")]);
    OneKind("STOP_ARRIVED");
    OneKind("STOP_COMPLETED");
    assert StatusEvents() == [Status("STOP_ARRIVED")] + [Status("STOP_COMPLETED")];
  }

  lemma {:induction false} DriveKinds(w: World, rows: seq<Row>, lengths: seq<nat>, start: real, step: real)
    requires |lengths| == |rows| && DriveRows(w, rows, lengths, start, step).stuck.None?
    ensures Kinds(DriveRows(w, rows, lengths, start, step).world.events) == Kinds(w.events) + StopKinds(|Legs(rows, lengths)|)
  {
    hide Pings, StatusEvents, HasPackages, TickAt, Kinds, WithStatus;
    if rows != [] {
      var k := |rows| - 1;
      var p := DriveRows(w, rows[..k], lengths[..k], start, step);
      DriveKinds(w, rows[..k], lengths[..k], start, step);
      if rows[k].located {
        LegKinds(p.world.events, p.clock, lengths[k], step);
      }
    }
  }

  /** A finished run records its start, an arrival and a completion for every driven stop, and its completion. */
  lemma FinishedRunRecords(w: World, rows: seq<Row>, reset: bool, lengths: seq<nat>, start: real, pace: Pace)
    requires |lengths| == |rows| && Run(w, rows, reset, lengths, start, pace).1 == Finished
    ensures Kinds(Run(w, rows, reset, lengths, start, pace).0.events) ==
      (if reset then [] else Kinds(w.events)) + ["ROUTE_STARTED"] + StopKinds(|Legs(rows, lengths)|) + ["ROUTE_COMPLETED"]
  {
    hide DriveRows, Reset, Kinds, StepSeconds, StopKinds, Legs;
    var a := Prepared(w, rows, reset);
    var p := DriveRows(Started(a), rows, lengths, start, StepSeconds(pace));
    ResetIs(w, rows);
    DriveKinds(Started(a), rows, lengths, start, StepSeconds(pace));
    KindsAppend(a.events, [Status("ROUTE_STARTED")]);
    KindsAppend(p.world.events, [Status("ROUTE_COMPLETED")]);
    OneKind("ROUTE_STARTED");
    OneKind("ROUTE_COMPLETED");
  }

  /** Each driven stop records the arrival of its own leg: the start plus all pings sent up to and including it. */
  lemma {:induction false} DrivenStopsArrive(w: World, rows: seq<Row>, lengths: seq<nat>, start: real, step: real, i: nat)
    requires |lengths| == |rows| && DriveRows(w, rows, lengths, start, step).stuck.None?
    requires forall i, j :: 0 <= i < j < |rows| ==> rows[i].stop != rows[j].stop
    requires i < |rows| && rows[i].located
    ensures var u := DriveRows(w, rows, lengths, start, step).world;
      && rows[i].stop in u.stops
      && u.stops[rows[i].stop] == Stop(COMPLETED, Some(TickAt(start, Sum(Legs(rows[..i + 1], lengths[..i + 1])), step)))
  {
    hide Pings, StatusEvents, HasPackages, TickAt, Legs, Sum, WithStatus;
    var k := |rows| - 1;
    var p := DriveRows(w, rows[..k], lengths[..k], start, step);
    if i < k {
      DrivenStopsArrive(w, rows[..k], lengths[..k], start, step, i);
      assert rows[..k][..i + 1] == rows[..i + 1] && lengths[..k][..i + 1] == lengths[..i + 1];
    } else {
      assert rows[..i + 1] == rows && lengths[..i + 1] == lengths;
      DriveTicks(w, rows[..k], lengths[..k], start, step);
      LegsStep(rows, lengths);
      TickShift(start, Sum(Legs(rows[..k], lengths[..k])), lengths[k], step);
    }
  }

  // ---- The script's session ----

  lemma {:induction false} StuckStays(w: World, rows: seq<Row>, lengths: seq<nat>, start: real, step: real, i: nat)
    requires |lengths| == |rows| && i <= |rows| && DriveRows(w, rows[..i], lengths[..i], start, step).stuck.Some?
    ensures DriveRows(w, rows, lengths, start, step) == DriveRows(w, rows[..i], lengths[..i], start, step)
  {
    var k := |rows| - 1;
    if i > k {
      assert rows[..i] == rows && lengths[..i] == lengths;
    } else {
      assert rows[..k][..i] == rows[..i] && lengths[..k][..i] == lengths[..i];
      StuckStays(w, rows[..k], lengths[..k], start, step, i);
    }
  }

  lemma DriveRowsStep(w: World, rows: seq<Row>, lengths: seq<nat>, start: real, step: real, i: nat)
    requires |lengths| == |rows| && i < |rows| && DriveRows(w, rows[..i], lengths[..i], start, step).stuck.None?
    ensures var p := DriveRows(w, rows[..i], lengths[..i], start, step);
      DriveRows(w, rows[..i + 1], lengths[..i + 1], start, step) ==
        if !rows[i].located then p
        else match Leg(p.world, rows[i], p.clock, lengths[i], step)
          case None => p.(stuck := Some(i))
          case Some(u) => Progress(u, TickAt(p.clock, lengths[i], step), None)
  {
    hide Leg, TickAt;
    assert rows[..i + 1][..i] == rows[..i] && lengths[..i + 1][..i] == lengths[..i];
  }

  lemma PingStep(start: real, n: nat, step: real)
    ensures Pings(start, n + 1, step) == Pings(start, n, step) + [Ping(TickAt(start, n, step))]
    ensures TickAt(start, n + 1, step) == TickAt(start, n, step) + step
  {
  }

  /** The database session of one run: the rows as the session sees them and as last committed. */
  class DriveSession {
    var world: World
    var committed: World

    constructor (w: World)
      ensures world == committed == w
    {
      world, committed := w, w;
    }

    method Commit()
      modifies this
      ensures world == committed == old(world)
    {
      committed := world;
    }

    /** What the session's context manager does with an exception. */
    method Rollback()
      modifies this
      ensures world == committed == old(committed)
    {
      world := committed;
    }

    method ResetRoute(rows: seq<Row>)
      modifies this
      ensures world == committed == Reset(old(world), rows)
    {
      hide ResetRow;
      world := world.(events := []);
      ghost var start := world;
      for i := 0 to |rows|
        invariant world == ResetRows(start, rows[..i]) && committed == old(committed)
      {
        assert rows[..i + 1][..i] == rows[..i];
        ResetStop(rows[i]);
      }
      assert rows[..|rows|] == rows;
      world := world.(routeStatus := ASSIGNED, driveSeconds := None);
      Commit();
    }

    method ResetStop(row: Row)
      modifies this`world
      ensures world == ResetRow(old(world), row)
    {
      world := world.(stops := world.stops[row.stop := Stop(READY, None)]);
      world := world.(packages := WithStatus(world.packages, row.order, ENROUTE_PICKUP));
      world := world.(orders := world.orders[row.order := ENROUTE_PICKUP]);
    }

    method DriverSetRouteStatus(driver: Id, status: string, kind: string) returns (ok: bool)
      modifies this`world
      ensures ok <==> old(world).driver == Some(driver)
      ensures world == if ok then old(world).(routeStatus := status, events := old(world).events + [Status(kind)]) else old(world)
    {
      ok := world.driver == Some(driver);
      if ok {
        world := world.(routeStatus := status);
        world := world.(events := world.events + [Status(kind)]);
      }
    }

    /** now is the wall clock, which only an arrival records. */
    method DriverUpdateStopStatus(stop: Id, driver: Id, status: string, now: real) returns (ok: bool)
      modifies this`world
      ensures ok <==> old(world).driver == Some(driver) && stop in old(world).stops
      ensures world == if !ok then old(world) else old(world).(
        stops := old(world).stops[stop := Stop(status, if status == ARRIVED then Some(now) else old(world).stops[stop].arrival)],
        events := old(world).events + [Status("STOP_" + status)])
    {
      ok := world.driver == Some(driver) && stop in world.stops;
      if ok {
        var s := world.stops[stop].(status := status);
        if status == ARRIVED {
          s := s.(arrival := Some(now));
        }
        world := world.(stops := world.stops[stop := s]);
        world := world.(events := world.events + [Status("STOP_" + status)]);
      }
    }

    /** Collect every package of the order; an order without packages is an error. */
    method PickupScanPackagesForOrder(order: Id) returns (ok: bool)
      modifies this`world
      ensures ok <==> HasPackages(old(world).packages, order)
      ensures world == if ok then old(world).(packages := WithStatus(old(world).packages, order, LOADED)) else old(world)
    {
      ok := HasPackages(world.packages, order);
      if ok {
        world := world.(packages := map p | p in world.packages ::
          if world.packages[p].order == order && world.packages[p].status != LOADED then world.packages[p].(status := LOADED)
          else world.packages[p]);
      }
    }

    /** _drive_one_leg: the pings advance occurredAt, and its last value is the simulated arrival. */
    method DriveOneLeg(points: nat, startedAt: real, step: real) returns (occurredAt: real, ok: bool)
      modifies this`world
      ensures ok <==> points > 0
      ensures occurredAt == TickAt(startedAt, points, step)
      ensures world == old(world).(events := old(world).events + Pings(startedAt, points, step))
    {
      hide TickAt, Pings;
      occurredAt := startedAt;
      var items: seq<Event> := [];
      NoPingsYet(startedAt, step);
      for i := 0 to points
        invariant items == Pings(startedAt, i, step) && occurredAt == TickAt(startedAt, i, step)
        invariant world == old(world)
      {
        PingStep(startedAt, i, step);
        items := items + [Ping(occurredAt)];
        occurredAt := occurredAt + step;
      }
      world := world.(events := world.events + items);
      ok := items != [];
    }

    method ArriveCollectComplete(row: Row, arrivedAt: real, now: real) returns (ok: bool)
      requires world.driver == Some(DEMO_DRIVER) && row.stop in world.stops
      modifies this`world
      ensures ok <==> HasPackages(old(world).packages, row.order)
      ensures ok ==> world == old(world).(
        stops := old(world).stops[row.stop := Stop(COMPLETED, Some(arrivedAt))],
        packages := WithStatus(old(world).packages, row.order, LOADED),
        events := old(world).events + StatusEvents())
    {
      hide HasPackages, WithStatus;
      ok := DriverUpdateStopStatus(row.stop, DEMO_DRIVER, ARRIVED, now);
      world := world.(stops := world.stops[row.stop := Stop(ARRIVED, Some(arrivedAt))]);
      ok := PickupScanPackagesForOrder(row.order);
      if ok {
        ok := DriverUpdateStopStatus(row.stop, DEMO_DRIVER, COMPLETED, now);
        assert "STOP_" + ARRIVED == "STOP_ARRIVED" && "STOP_" + COMPLETED == "STOP_COMPLETED";
        assert world.stops == old(world).stops[row.stop := Stop(COMPLETED, Some(arrivedAt))];
        assert world.events == old(world).events + StatusEvents();
      }
    }

    /** One row of the loop: its leg and its stop, committed together or not at all. */
    method DriveRow(row: Row, points: nat, startedAt: real, step: real, now: real) returns (arrivedAt: real, ok: bool)
      requires world == committed && world.driver == Some(DEMO_DRIVER) && row.stop in world.stops
      modifies this
      ensures ok <==> Leg(old(world), row, startedAt, points, step).Some?
      ensures ok ==> world == Leg(old(world), row, startedAt, points, step).value
      ensures !ok ==> world == old(world)
      ensures ok ==> arrivedAt == TickAt(startedAt, points, step)
      ensures world == committed
    {
      hide HasPackages, WithStatus, TickAt, Pings, StatusEvents;
      arrivedAt, ok := DriveOneLeg(points, startedAt, step);
      if ok {
        ok := ArriveCollectComplete(row, arrivedAt, now);
      }
      if ok {
        Commit();
      } else {
        Rollback();
      }
    }

    /** _run. now is the wall clock the stop updates read; startedAt is the start the script notes. */
    method RunDrive(rows: seq<Row>, reset: bool, lengths: seq<nat>, startedAt: real, pace: Pace, now: real)
      returns (outcome: Outcome)
      requires |lengths| == |rows| && Joined(world, rows) && committed == world
      modifies this
      ensures (committed, outcome) == Run(old(world), rows, reset, lengths, startedAt, pace)
      ensures world == committed
    {
      hide Reset, DriveRows, Leg, TickAt, IsStopOf, IsOrderOf, StepSeconds;
      var step := StepSeconds(pace);
      if rows == [] {
        return NoStops;
      }
      if reset {
        ResetIs(world, rows);
        ResetRoute(rows);
      }
      if world.routeStatus == COMPLETED {
        return AlreadyCompleted;
      }
      var ok := DriverSetRouteStatus(DEMO_DRIVER, ACTIVE, "ROUTE_STARTED");
      if !ok {
        return NotFound;
      }
      Commit();
      ghost var b := world;
      var cursor := startedAt;
      NothingYet(b, startedAt, step);
      for i := 0 to |rows|
        invariant DriveRows(b, rows[..i], lengths[..i], startedAt, step) == Progress(world, cursor, None)
        invariant world == committed && world.driver == Some(DEMO_DRIVER)
        invariant forall i :: 0 <= i < |rows| ==> rows[i].stop in world.stops
      {
        DriveRowsStep(b, rows, lengths, startedAt, step, i);
        if rows[i].located {
          ghost var before := world;
          var at;
          at, ok := DriveRow(rows[i], lengths[i], cursor, step, now);
          if !ok {
            StuckStays(b, rows, lengths, startedAt, step, i + 1);
            return Failed(i);
          }
          LegKeeps(before, rows[i], cursor, lengths[i], step);
          cursor := at;
        }
      }
      assert rows[..|rows|] == rows && lengths[..|rows|] == lengths;
      ok := DriverSetRouteStatus(DEMO_DRIVER, COMPLETED, "ROUTE_COMPLETED");
      world := world.(driveSeconds := Some(cursor - startedAt));
      Commit();
      outcome := Finished;
    }
  }

  lemma NoPingsYet(start: real, step: real)
    ensures Pings(start, 0, step) == [] && TickAt(start, 0, step) == start
  {
  }

  lemma NothingYet(w: World, start: real, step: real)
    ensures DriveRows(w, [], [], start, step) == Progress(w, start, None)
  {
  }

  lemma LegKeeps(w: World, row: Row, start: real, n: nat, step: real)
    requires Leg(w, row, start, n, step).Some?
    ensures var u := Leg(w, row, start, n, step).value; u.driver == w.driver && w.stops.Keys <= u.stops.Keys
  {
  }
}
