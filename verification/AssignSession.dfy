/** The script as it runs: a session over mutable tables, one statement after the other.
    Each method is proved to take the tables where the corresponding function of AssignStore says. */
module AssignSession {
  import opened Outcomes
  import opened Calendar
  import opened AssignIds
  import opened AssignStore
  import opened AssignRuns
  import opened AssignFrame

  lemma {:induction false} FailedPrefixFails(s: Store, route: Id, xs: seq<StopSpec>, k: nat)
    requires k <= |xs| && AddStops(s, route, xs[..k]).None?
    ensures AddStops(s, route, xs).None?
  {
    hide Fits, Unused, WithStop;
    if k == |xs| {
      assert xs[..k] == xs;
    } else {
      var init := xs[..|xs| - 1];
      assert init[..k] == xs[..k];
      FailedPrefixFails(s, route, init, k);
    }
  }

  lemma NextPrefix(s: Store, route: Id, xs: seq<StopSpec>, k: nat)
    requires k < |xs|
    ensures AddStops(s, route, xs[..k + 1]) ==
      match AddStops(s, route, xs[..k]) case None => None case Some(t) => AddStop(t, route, xs[k])
  {
    hide Fits, Unused, WithStop;
    var p := xs[..k + 1];
    assert p[..|p| - 1] == xs[..k];
  }

  class Session {
    var plans: map<Id, Plan>
    var routes: map<Id, Route>
    var routeStops: map<Id, RouteStop>
    var orders: map<Id, Order>
    var deliveryStops: map<Id, DeliveryStop>
    var packages: map<Id, Package>
    var manifests: map<ScenarioKey, Manifest>
    var nextId: Id

    function State(): Store
      reads this
    {
      Store(plans, routes, routeStops, orders, deliveryStops, packages, manifests, nextId)
    }

    constructor (s: Store)
      ensures State() == s
    {
      plans, routes, routeStops, orders := s.plans, s.routes, s.routeStops, s.orders;
      deliveryStops, packages, manifests, nextId := s.deliveryStops, s.packages, s.manifests, s.nextId;
    }

    /** Flushes hand out ids. */
    method FreshId() returns (id: Id)
      modifies this`nextId
      ensures id == old(nextId) && nextId == id + 1
    {
      id := nextId;
      nextId := nextId + 1;
    }

    // ---- _delete_scenario_seed_rows ----

    method DeleteRoute(id: Id)
      modifies this`routes, this`routeStops
      ensures State() == DeleteRoutes(old(State()), {id})
    {
      routeStops := map i | i in routeStops && routeStops[i].route != id :: routeStops[i];
      routes := routes - {id};
    }

    method DeleteOrdersWhere(pattern: string)
      modifies this`orders, this`deliveryStops, this`packages, this`routeStops
      ensures State() == DeleteOrders(old(State()), OrdersLike(old(State()), pattern))
    {
      var gone := set o | o in orders && Like(orders[o].orderId, pattern);
      var stops := set d | d in deliveryStops && deliveryStops[d].order in gone;
      packages := map p | p in packages && packages[p].order !in gone ::
        packages[p].(deliveryStop := Nullify(packages[p].deliveryStop, stops));
      routeStops := map i | i in routeStops ::
        routeStops[i].(deliveryStop := Nullify(routeStops[i].deliveryStop, stops),
                       order := Nullify(routeStops[i].order, gone));
      deliveryStops := deliveryStops - stops;
      orders := orders - gone;
    }

    method DeleteScenarioSeedRows(slot: Slot)
      requires RouteCodesUnique(State())
      modifies this`routes, this`routeStops, this`orders, this`deliveryStops, this`packages
      ensures State() == Purge(old(State()), slot)
    {
      hide Like;
      var code := slot.RouteCode();
      ghost var own := RoutesWithCode(State(), code);
      if exists r :: r in routes && routes[r].code == code {
        var r :| r in routes && routes[r].code == code;
        assert own == {r};
        DeleteRoute(r);
      } else {
        assert own == {};
        assert DeleteRoutes(State(), {}).routes == routes;
        assert DeleteRoutes(State(), {}).routeStops == routeStops;
      }
      DeleteOrdersWhere(slot.OrderPattern());
    }

    // ---- _demote_other_active_routes ----

    method DemoteOtherActiveRoutes(driver: Id, depot: Id, day: Date, keepCode: string) returns (count: nat)
      modifies this`routes
      ensures State() == Demote(old(State()), driver, depot, day, keepCode)
      ensures count == |set r | r in old(routes) && Demotable(old(State()), r, driver, depot, day, keepCode)|
    {
      var matched := set r | r in routes && Demotable(State(), r, driver, depot, day, keepCode);
      routes := map r | r in routes :: if r in matched then routes[r].(status := Assigned) else routes[r];
      count := |matched|;
    }

    // ---- _get_or_create_plan ----

    method FindOrCreatePlan(depot: Id, day: Date) returns (plan: Id, created: bool)
      requires PlansUnique(State())
      modifies this`plans, this`nextId
      ensures (State(), plan, created) == GetOrCreatePlan(old(State()), depot, day)
    {
      if exists p :: p in plans && plans[p] == Plan(depot, day) {
        plan :| plan in plans && plans[plan] == Plan(depot, day);
        created := false;
      } else {
        plan := FreshId();
        plans := plans[plan := Plan(depot, day)];
        created := true;
      }
    }

    // ---- Inserting rows ----

    method InsertOrder(x: StopSpec) returns (id: Option<Id>)
      modifies this`orders, this`nextId
      ensures id == if |x.orderId| <= LEN_ORDER_ID && |x.masterLabel| <= LEN_MASTER_LABEL_ID
                       && (forall o :: o in old(orders) ==>
                             old(orders)[o].orderId != x.orderId && old(orders)[o].masterLabel != x.masterLabel)
                    then Some(old(nextId)) else None
      ensures id.Some? ==> nextId == old(nextId) + 1
      ensures id.Some? ==>
        orders == old(orders)[id.value := Order(x.orderId, x.masterLabel, x.organization, Some(x.customer), x.pickup, x.orderStatus)]
    {
      if |x.orderId| > LEN_ORDER_ID || |x.masterLabel| > LEN_MASTER_LABEL_ID {
        return None;
      }
      if exists o :: o in orders && (orders[o].orderId == x.orderId || orders[o].masterLabel == x.masterLabel) {
        return None;
      }
      var n := FreshId();
      orders := orders[n := Order(x.orderId, x.masterLabel, x.organization, Some(x.customer), x.pickup, x.orderStatus)];
      return Some(n);
    }

    method InsertDeliveryStop(order: Id, x: StopSpec) returns (id: Option<Id>)
      modifies this`deliveryStops, this`nextId
      ensures id == if |x.trackingId| <= LEN_TRACKING_ID
                       && (forall d :: d in old(deliveryStops) ==> old(deliveryStops)[d].trackingId != x.trackingId)
                    then Some(old(nextId)) else None
      ensures id.Some? ==> nextId == old(nextId) + 1
      ensures id.Some? ==>
        deliveryStops == old(deliveryStops)[id.value := DeliveryStop(order, x.trackingId, x.stopStatus, x.day)]
    {
      if |x.trackingId| > LEN_TRACKING_ID {
        return None;
      }
      if exists d :: d in deliveryStops && deliveryStops[d].trackingId == x.trackingId {
        return None;
      }
      var n := FreshId();
      deliveryStops := deliveryStops[n := DeliveryStop(order, x.trackingId, x.stopStatus, x.day)];
      return Some(n);
    }

    /** One stop: order, delivery stop, route stop and two packages, flushed in this order. */
    method InsertStop(route: Id, x: StopSpec) returns (ok: bool)
      modifies this`orders, this`deliveryStops, this`routeStops, this`packages, this`nextId
      ensures ok <==> AddStop(old(State()), route, x).Some?
      ensures ok ==> State() == AddStop(old(State()), route, x).value
    {
      ghost var s := State();
      var order := InsertOrder(x);
      if order.None? {
        return false;
      }
      var stop := InsertDeliveryStop(order.value, x);
      if stop.None? {
        return false;
      }
      if !IsInteger(x.sequence) {
        return false;
      }
      var leg := FreshId();
      routeStops := routeStops[leg := RouteStop(route, Some(stop.value), None, x.sequence, READY, x.flow)];
      var package := Package(order.value, Some(stop.value), x.packageStatus);
      var first := FreshId();
      packages := packages[first := package];
      var second := FreshId();
      packages := packages[second := package];
      assert Fits(x) && Unused(s, x);
      assert State() == WithStop(s, route, x) by {
        hide Unused;
        var t := WithStop(s, route, x);
        assert orders == t.orders && deliveryStops == t.deliveryStops;
        assert routeStops == t.routeStops && packages == t.packages;
      }
      return true;
    }

    method AppendReturnRouteStop(route: Id, x: StopSpec) returns (ok: bool)
      requires route in routes
      modifies this`orders, this`deliveryStops, this`routeStops, this`packages, this`routes, this`nextId
      ensures ok <==> AppendReturn(old(State()), route, x).Some?
      ensures ok ==> State() == AppendReturn(old(State()), route, x).value
    {
      hide Unused, Fits, WithStop;
      ok := InsertStop(route, x);
      if ok {
        var total := routes[route].totalStops + 1;
        ok := IsInteger(total);
        if ok {
          routes := routes[route := routes[route].(totalStops := total)];
        }
      }
    }

    // ---- assign_today_driver_route ----

    method InsertRouteGraph(g: Graph) returns (ok: bool, route: Id)
      modifies this`orders, this`deliveryStops, this`routeStops, this`packages, this`routes, this`nextId
      ensures ok <==> InsertGraph(old(State()), g).Some?
      ensures ok ==> State() == InsertGraph(old(State()), g).value && route == old(nextId)
    {
      hide Unused, Fits, WithStop;
      route := FreshId();
      ok := IsInteger(g.row.totalStops);
      if !ok {
        return;
      }
      routes := routes[route := g.row];
      ghost var start := State();
      assert start == WithRoute(old(State()), g.row);
      var i := 0;
      while i < |g.operations|
        invariant 0 <= i <= |g.operations|
        invariant AddStops(start, route, g.operations[..i]) == Some(State())
      {
        NextPrefix(start, route, g.operations, i);
        ok := InsertStop(route, g.operations[i]);
        if !ok {
          FailedPrefixFails(start, route, g.operations, i + 1);
          return;
        }
        i := i + 1;
      }
      assert g.operations[..i] == g.operations;
      AddStopsKeepsRoutes(start, route, g.operations);
      ok := true;
      if g.back.Some? {
        ok := AppendReturnRouteStop(route, g.back.value);
      }
    }

    method AssignTodayDriverRoute(a: SeedArgs) returns (ok: bool)
      requires Valid(State())
      modifies this
      ensures ok <==> Seed(old(State()), a).Some?
      ensures ok ==> State() == Seed(old(State()), a).value
    {
      hide Purge, Demote, GetOrCreatePlan, InsertGraph, SeedArgs.NewGraph, Valid;
      assert RouteCodesUnique(State()) by { ValidCodes(State()); }
      DeleteScenarioSeedRows(a.slot);
      if a.demote && a.status == Active {
        var _ := DemoteOtherActiveRoutes(a.driver, a.depot, a.slot.day, a.slot.RouteCode());
      }
      assert State() == MakeRoom(old(State()), a);
      MakeRoomValid(old(State()), a);
      assert PlansUnique(State()) by { ValidCodes(State()); }
      var plan, created := FindOrCreatePlan(a.depot, a.slot.day);
      ghost var t := State();
      var route;
      ok, route := InsertRouteGraph(a.NewGraph(plan));
      if ok {
        SeedParts(old(State()), a);
        manifests := manifests[a.slot.key := Manifest(plan, created, route, a.slot.day)];
      }
    }

    /** run_assign: commit on success, roll everything back otherwise. */
    method RunAssign(a: SeedArgs) returns (ok: bool)
      requires Valid(State())
      modifies this
      ensures ok <==> Seed(old(State()), a).Some?
      ensures State() == Apply(old(State()), SeedStep(a)) && Valid(State())
      ensures if ok then State() == Seed(old(State()), a).value else State() == old(State())
    {
      hide Valid, Seed;
      var saved := State();
      ok := AssignTodayDriverRoute(a);
      if !ok {
        plans, routes, routeStops, orders := saved.plans, saved.routes, saved.routeStops, saved.orders;
        deliveryStops, packages, manifests := saved.deliveryStops, saved.packages, saved.manifests;
        nextId := saved.nextId;
      }
      ApplyValid(saved, SeedStep(a));
    }

    // ---- clear_today_driver_route ----

    method DeletePlanRow(plan: Id)
      modifies this`plans, this`routes, this`routeStops
      ensures State() == DeletePlan(old(State()), plan)
    {
      var gone := set r | r in routes && routes[r].plan == Some(plan);
      routeStops := map i | i in routeStops && routeStops[i].route !in gone :: routeStops[i];
      routes := routes - gone;
      plans := plans - {plan};
    }

    method RunClear(slot: Slot)
      requires Valid(State())
      modifies this
      ensures State() == Clear(old(State()), slot) && Valid(State())
    {
      hide Purge, DeletePlan, Valid;
      ghost var s := State();
      assert RouteCodesUnique(State()) by { ValidCodes(State()); }
      DeleteScenarioSeedRows(slot);
      ghost var p := State();
      if slot.key in manifests && manifests[slot.key].planCreatedByScript {
        var plan := manifests[slot.key].plan;
        var remaining := |set r | r in routes && routes[r].plan == Some(plan)|;
        assert remaining == 0 <==> !PlanInUse(p, plan) by {
          var users := set r | r in routes && routes[r].plan == Some(plan);
          if r :| r in routes && routes[r].plan == Some(plan) {
            assert r in users;
            assert |users| != 0;
          } else {
            assert users == {};
          }
        }
        if remaining == 0 && plan in plans {
          DeletePlanRow(plan);
        }
      }
      manifests := manifests - {slot.key};
      ClearValid(s, slot);
    }
  }

  lemma ValidCodes(s: Store)
    requires Valid(s)
    ensures RouteCodesUnique(s) && PlansUnique(s)
  {
  }
}
