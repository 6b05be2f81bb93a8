/** What the rows of a seeded route say, read from the tables. */
module AssignContents {
  import opened Outcomes
  import opened Calendar
  import opened AssignIds
  import opened AssignStore
  import opened AssignRuns
  import opened AssignActive
  import opened AssignFrame
  import opened AssignCounts

  predicate ForPickup(key: ScenarioKey) {
    key == Pickup || key == PickupReturn
  }

  predicate WithReturn(key: ScenarioKey) {
    key == PickupReturn || key == DeliveryReturn
  }

  // ---- The route and the manifest ----

  lemma CreatedExactly(s: Store, depot: Id, day: Date)
    requires IdsBelow(s)
    ensures var (t, plan, created) := GetOrCreatePlan(s, depot, day); created <==> plan !in s.plans
  {
  }

  lemma NewRowIs(a: SeedArgs, plan: Id)
    ensures var row := FinalRow(a.NewGraph(plan));
      && row.driver == Some(a.driver) && row.status == a.status && row.plan == Some(plan)
      && row.routeType == (if ForPickup(a.slot.key) then "PICKUP" else "DELIVERY")
      && row.totalStops == a.stops + (if WithReturn(a.slot.key) then 2 else 0)
  {
    hide Slot.RouteCode, SeedArgs.Operation, SeedArgs.Return;
  }

  /** After a seed exactly one route has the slot's code, and it is new: the given driver's, in the given status, on the
      plan of depot and day, of the scenario's type. The manifest names it, its plan, and whether the plan is new. */
  lemma SeedWritesRow(s: Store, a: SeedArgs)
    requires Valid(s) && Seed(s, a).Some?
    ensures var v, route := Seed(s, a).value, Prepare(s, a).0.nextId;
      && route !in s.routes && route in v.routes
      && (forall r :: r in v.routes && v.routes[r].code == a.slot.RouteCode() <==> r == route)
      && v.routes[route].driver == Some(a.driver) && v.routes[route].status == a.status
      && v.routes[route].routeType == (if ForPickup(a.slot.key) then "PICKUP" else "DELIVERY")
      && v.routes[route].totalStops == a.stops + (if WithReturn(a.slot.key) then 2 else 0)
      && v.routes[route].plan.Some? && v.routes[route].plan.value in v.plans
      && v.plans[v.routes[route].plan.value] == Plan(a.depot, a.slot.day)
      && a.slot.key in v.manifests
      && v.manifests[a.slot.key] ==
           Manifest(v.routes[route].plan.value, v.routes[route].plan.value !in s.plans, route, a.slot.day)
  {
    hide Valid, MakeRoom, GetOrCreatePlan, InsertGraph, SeedArgs.NewGraph, FinalRow, Slot.RouteCode;
    var (t, plan, created) := Prepare(s, a);
    var m := MakeRoom(s, a);
    PrepareValid(s, a);
    ValidIds(s);
    ValidIds(t);
    PrepareIds(s, a);
    MakeRoomValid(s, a);
    MakeRoomKeepsPlans(s, a);
    ValidIds(m);
    CreatedExactly(m, a.depot, a.slot.day);
    SeedParts(s, a);
    SeedRoutes(s, a);
    GraphCode(a, plan);
    NewRowIs(a, plan);
  }

  // ---- The other routes ----

  /** Every route outside the slot stays as it was, except that an ACTIVE seed that demotes takes the ACTIVE routes of the
      same driver, planned for the same depot and day, to ASSIGNED. */
  lemma SeedDemotesExactly(s: Store, a: SeedArgs, r: Id)
    requires Valid(s) && AtHome(s, a.slot) && Seed(s, a).Some? && r in s.routes && s.routes[r].code != a.slot.RouteCode()
    ensures var v, row := Seed(s, a).value, s.routes[r];
      && r in v.routes
      && v.routes[r] ==
           (if a.demote && a.status == Active && row.status == Active && row.driver == Some(a.driver)
               && row.plan.Some? && row.plan.value in s.plans
               && s.plans[row.plan.value].depot == a.depot && s.plans[row.plan.value].day == a.slot.day
            then row.(status := Assigned) else row)
  {
    hide Valid, AtHome, Prepare, Seed, Slot.RouteCode, Slot.OrderPrefix, GrownOrders, GrownDeliveryStops, GrownRouteStops,
         GrownPackages;
    SeedLeavesRest(s, a);
  }

  // ---- The stops ----

  /** The package rows of an order. */
  function PackagesOf(s: Store, order: Id): set<Id> {
    set p | p in s.packages && s.packages[p].order == order
  }

  /** The order, delivery stop and packages behind route stop i, all in one status each. */
  ghost predicate Carries(v: Store, i: Id, orderStatus: string, stopStatus: string, packageStatus: string)
    requires i in v.routeStops
  {
    var rs := v.routeStops[i];
    && rs.status == "READY" && rs.order.None? && rs.deliveryStop.Some? && rs.deliveryStop.value in v.deliveryStops
    && var d := v.deliveryStops[rs.deliveryStop.value];
    && d.order in v.orders && v.orders[d.order].status == orderStatus && d.status == stopStatus
    && |PackagesOf(v, d.order)| == 2
    && forall p :: p in PackagesOf(v, d.order) ==> v.packages[p] == Package(d.order, rs.deliveryStop, packageStatus)
  }

  /** Whose order it is, for which day, and under which printed ids. */
  ghost predicate Belongs(v: Store, i: Id, a: SeedArgs, suffix: string, pickup: Option<Id>)
    requires i in v.routeStops && v.routeStops[i].deliveryStop.Some? && v.routeStops[i].sequence >= 0
  {
    var rs := v.routeStops[i];
    && rs.deliveryStop.value in v.deliveryStops
    && var d := v.deliveryStops[rs.deliveryStop.value];
    && d.order in v.orders
    && var o := v.orders[d.order];
    && o.organization == a.organization && o.customer == Some(a.customer) && o.pickup == pickup
    && d.scheduledFor == a.slot.day
    && o.orderId == PrintedId("ORD-", a.slot, rs.sequence, suffix)
    && o.masterLabel == PrintedId("ML-", a.slot, rs.sequence, suffix)
    && d.trackingId == PrintedId("TRK-", a.slot, rs.sequence, suffix)
  }

  predicate PackageOfStop(s: Store, u: Store, p: Id, k: nat)
    requires p in u.packages
  {
    u.packages[p].order == s.nextId + 5 * k && (p == s.nextId + 5 * k + 3 || p == s.nextId + 5 * k + 4)
  }

  lemma {:induction false} AddStopsPackages(s: Store, route: Id, xs: seq<StopSpec>)
    requires Valid(s) && route in s.routes
    ensures AddStops(s, route, xs).Some? ==>
      var u := AddStops(s, route, xs).value;
      forall p :: p in u.packages && p !in s.packages ==> exists k :: 0 <= k < |xs| && PackageOfStop(s, u, p, k)
  {
    hide Valid, Unused;
    if xs != [] {
      var init := xs[..|xs| - 1];
      AddStopsPackages(s, route, init);
      AddStopsKeepsRoutes(s, route, init);
      if AddStops(s, route, xs).Some? {
        var t, u := AddStops(s, route, init).value, AddStops(s, route, xs).value;
        forall p | p in u.packages && p !in s.packages
          ensures exists k :: 0 <= k < |xs| && PackageOfStop(s, u, p, k)
        {
          if p == t.nextId + 3 || p == t.nextId + 4 {
            assert PackageOfStop(s, u, p, |init|);
          } else {
            assert p in t.packages && u.packages[p] == t.packages[p];
            var k :| 0 <= k < |init| && PackageOfStop(s, t, p, k);
            assert PackageOfStop(s, u, p, k);
          }
        }
      }
    }
  }

  /** An order of a new graph has two packages: its own. */
  lemma OrderPackages(t: Store, g: Graph, k: nat)
    requires Valid(t) && Refers(g.row.plan, t.plans) && CodeUnused(t, g.row.code)
    requires InsertGraph(t, g).Some? && k < |Specs(g)|
    requires Extends(t.packages, InsertGraph(t, g).value.packages)
    requires RowsOf(InsertGraph(t, g).value, t.nextId + 1 + 5 * k, t.nextId, Specs(g)[k])
    ensures var first := t.nextId + 1 + 5 * k;
      PackagesOf(InsertGraph(t, g).value, first) == {first + 3, first + 4}
  {
    hide Valid, Specs, InsertGraph, FinalRow, AddStops, CodeUnused, Refers, PackageOfStop, PackagesOf, RowsOf, CounterFits;
    var u, r := InsertGraph(t, g).value, WithRoute(t, g.row);
    WithRouteValid(t, g.row);
    WithRouteRow(t, g.row);
    InsertGraphIsStops(t, g);
    AddStopsPackages(r, t.nextId, Specs(g));
    PackagesBelow(t);
    TwoPackages(t, r, AddStops(r, t.nextId, Specs(g)).value, u, Specs(g), k);
  }

  lemma TwoPackages(t: Store, r: Store, w: Store, u: Store, xs: seq<StopSpec>, k: nat)
    requires r.packages == t.packages && r.nextId == t.nextId + 1 && u.packages == w.packages && k < |xs|
    requires forall p :: p in t.packages ==> t.packages[p].order < t.nextId
    requires Extends(t.packages, u.packages)
    requires forall p :: p in w.packages && p !in r.packages ==> exists j :: 0 <= j < |xs| && PackageOfStop(r, w, p, j)
    requires RowsOf(u, t.nextId + 1 + 5 * k, t.nextId, xs[k])
    ensures var first := t.nextId + 1 + 5 * k; PackagesOf(u, first) == {first + 3, first + 4}
  {
    var first := t.nextId + 1 + 5 * k;
    forall p | p in PackagesOf(u, first) ensures p == first + 3 || p == first + 4 {
      assert p !in t.packages;
      var j :| 0 <= j < |xs| && PackageOfStop(r, w, p, j);
    }
  }

  lemma PackagesBelow(s: Store)
    requires Valid(s)
    ensures forall p :: p in s.packages ==> s.packages[p].order < s.nextId
  {
  }

  lemma OperationReads(v: Store, first: Id, route: Id, a: SeedArgs, n: nat)
    requires RowsOf(v, first, route, a.Operation(n)) && PackagesOf(v, first) == {first + 3, first + 4}
    ensures var i := first + 2;
      && i in v.routeStops && v.routeStops[i].sequence == n && v.routeStops[i].deliveryStop.Some?
      && v.routeStops[i].flow == (if ForPickup(a.slot.key) then "PICKUP" else "DELIVERY")
      && Carries(v, i, if ForPickup(a.slot.key) then "ENROUTE_PICKUP" else "DELIVERY_IN_PROGRESS",
                 if ForPickup(a.slot.key) then "ENROUTE_PICKUP" else "OUT_FOR_DELIVERY",
                 if ForPickup(a.slot.key) then "ENROUTE_PICKUP" else "OUT_FOR_DELIVERY")
      && Belongs(v, i, a, "", None)
  {
    hide PrintedId, PackagesOf;
    assert |{first + 3, first + 4}| == 2;
  }

  lemma ReturnReads(v: Store, first: Id, route: Id, a: SeedArgs, n: nat)
    requires RowsOf(v, first, route, a.Return(n)) && PackagesOf(v, first) == {first + 3, first + 4}
    ensures var i := first + 2;
      && i in v.routeStops && v.routeStops[i].sequence == n && v.routeStops[i].deliveryStop.Some?
      && v.routeStops[i].flow == "RETURN"
      && Carries(v, i, "RETURN_IN_TRANSIT", "RETURN_IN_TRANSIT", "RETURN_IN_TRANSIT")
      && Belongs(v, i, a, "-RET", Some(a.pickup))
  {
    hide PrintedId, PackagesOf;
    assert |{first + 3, first + 4}| == 2;
  }

  /** Every stop of the seeded route carries an order of the given organization and customer, its delivery stop for the
      slot's day and two packages, each in the scenario's status and under the ids printed for its sequence number. The
      stops up to the number asked for are the scenario's own; one more, of a return scenario, takes the parcels back to
      the pickup address. */
  lemma SeedWritesStops(s: Store, a: SeedArgs, i: Id)
    requires Valid(s) && AtHome(s, a.slot) && Seed(s, a).Some?
    requires var v := Seed(s, a).value;
      i in v.routeStops && v.routeStops[i].route in v.routes && v.routes[v.routeStops[i].route].code == a.slot.RouteCode()
    ensures var v := Seed(s, a).value;
      var n, rs := if a.stops < 0 then 0 else a.stops, v.routeStops[i];
      && 1 <= rs.sequence <= n + 1 && rs.deliveryStop.Some?
      && (rs.sequence <= n ==>
            && rs.flow == (if ForPickup(a.slot.key) then "PICKUP" else "DELIVERY")
            && Carries(v, i, if ForPickup(a.slot.key) then "ENROUTE_PICKUP" else "DELIVERY_IN_PROGRESS",
                       if ForPickup(a.slot.key) then "ENROUTE_PICKUP" else "OUT_FOR_DELIVERY",
                       if ForPickup(a.slot.key) then "ENROUTE_PICKUP" else "OUT_FOR_DELIVERY")
            && Belongs(v, i, a, "", None))
      && (rs.sequence == n + 1 ==>
            && WithReturn(a.slot.key) && rs.flow == "RETURN"
            && Carries(v, i, "RETURN_IN_TRANSIT", "RETURN_IN_TRANSIT", "RETURN_IN_TRANSIT")
            && Belongs(v, i, a, "-RET", Some(a.pickup)))
  {
    hide Valid, AtHome, Prepare, Seed, SeedArgs.NewGraph, SeedArgs.Operation, SeedArgs.Return, Slot.RouteCode, RowsOf,
         Carries, Belongs, PackagesOf;
    var (t, plan, created) := Prepare(s, a);
    var v, n := Seed(s, a).value, a.Operational();
    SeedWritesRow(s, a);
    SeedWritesRoute(s, a);
    assert i in StopsOn(v, t.nextId);
    var k :| 0 <= k < n + Drift(a.slot) && i == t.nextId + 1 + 5 * k + 2;
    var first := t.nextId + 1 + 5 * k;
    assert i == first + 2 && 0 <= k;
    assert n == if a.stops < 0 then 0 else a.stops;
    SeedPackages(s, a, k);
    if k < n {
      OperationReads(v, first, t.nextId, a, k + 1);
    } else {
      ReturnReads(v, first, t.nextId, a, k + 1);
    }
  }

  lemma SeedPackages(s: Store, a: SeedArgs, k: nat)
    requires Valid(s) && AtHome(s, a.slot) && Seed(s, a).Some? && k < a.Operational() + Drift(a.slot)
    ensures var first := Prepare(s, a).0.nextId + 1 + 5 * k;
      PackagesOf(Seed(s, a).value, first) == {first + 3, first + 4}
  {
    hide Valid, AtHome, Prepare, SeedArgs.NewGraph, Slot.RouteCode, Slot.OrderPrefix, RowsOf, InsertGraph, FinalRow, Specs,
         CodeUnused, GrownOrders, GrownDeliveryStops, GrownRouteStops;
    var (t, plan, created) := Prepare(s, a);
    var g := a.NewGraph(plan);
    PrepareValid(s, a);
    PrepareReady(s, a);
    SeedParts(s, a);
    ReadyInsert(t, a, plan);
    GraphTotals(a, plan);
    GraphCode(a, plan);
    OrderPackages(t, g, k);
    SamePackages(InsertGraph(t, g).value, Seed(s, a).value, t.nextId + 1 + 5 * k);
  }

  lemma SamePackages(u: Store, v: Store, order: Id)
    requires u.packages == v.packages
    ensures PackagesOf(u, order) == PackagesOf(v, order)
  {
  }
}
