/** What every run of seeds and clears keeps. */
module AssignRuns {
  import opened Outcomes
  import opened Calendar
  import opened AssignIds
  import opened AssignStore

  // ---- Purge removes one slot's rows and nothing else ----

  // A slot is known in the tables by its route code and by the prefix of its order ids.

  function OrdersWithPrefix(s: Store, prefix: string): set<Id> {
    set o | o in s.orders && prefix <= s.orders[o].orderId
  }

  ghost predicate StopsAtHome(s: Store, routes: set<Id>, stops: set<Id>) {
    forall i | i in s.routeStops && s.routeStops[i].deliveryStop.Some? ::
      s.routeStops[i].deliveryStop.value in stops ==> s.routeStops[i].route in routes
  }

  ghost predicate PickupsAtHome(s: Store, routes: set<Id>, orders: set<Id>) {
    forall i | i in s.routeStops && s.routeStops[i].order.Some? ::
      s.routeStops[i].order.value in orders ==> s.routeStops[i].route in routes
  }

  ghost predicate PackagesAtHome(s: Store, orders: set<Id>, stops: set<Id>) {
    forall p | p in s.packages && s.packages[p].deliveryStop.Some? ::
      s.packages[p].deliveryStop.value in stops ==> s.packages[p].order in orders
  }

  ghost predicate AtHomeNamed(s: Store, code: string, prefix: string) {
    var routes, orders := RoutesWithCode(s, code), OrdersWithPrefix(s, prefix);
    var stops := StopsOfOrders(s, orders);
    StopsAtHome(s, routes, stops) && PickupsAtHome(s, routes, orders) && PackagesAtHome(s, orders, stops)
  }

  /** The slot's orders are reached only from the slot's route and from their own packages. */
  ghost predicate AtHome(s: Store, slot: Slot) {
    AtHomeNamed(s, slot.RouteCode(), slot.OrderPrefix())
  }

  /** Rows removed, every other row exactly as it was. */
  function RemoveRows(s: Store, routes: set<Id>, orders: set<Id>): Store {
    s.(routes := s.routes - routes,
       routeStops := map i | i in s.routeStops && s.routeStops[i].route !in routes :: s.routeStops[i],
       orders := s.orders - orders,
       deliveryStops := s.deliveryStops - StopsOfOrders(s, orders),
       packages := map p | p in s.packages && s.packages[p].order !in orders :: s.packages[p])
  }

  /** Nothing outside the deleted orders refers to them or to their stops. */
  ghost predicate Closed(s: Store, gone: set<Id>) {
    && (forall i | i in s.routeStops && s.routeStops[i].deliveryStop.Some? ::
          s.routeStops[i].deliveryStop.value !in StopsOfOrders(s, gone))
    && (forall i | i in s.routeStops && s.routeStops[i].order.Some? :: s.routeStops[i].order.value !in gone)
    && (forall p | p in s.packages && s.packages[p].deliveryStop.Some? ::
          s.packages[p].deliveryStop.value in StopsOfOrders(s, gone) ==> s.packages[p].order in gone)
  }

  lemma DeleteOrdersExact(s: Store, gone: set<Id>)
    requires Closed(s, gone)
    ensures DeleteOrders(s, gone) == RemoveRows(s, {}, gone)
  {
    var u, w := DeleteOrders(s, gone), RemoveRows(s, {}, gone);
    assert u.routes == w.routes;
    assert u.routeStops == w.routeStops;
    assert u.packages == w.packages;
  }

  lemma PurgeNamedExact(s: Store, code: string, prefix: string, pattern: string)
    requires AtHomeNamed(s, code, prefix)
    requires forall o | o in s.orders :: Like(s.orders[o].orderId, pattern) <==> prefix <= s.orders[o].orderId
    ensures PurgeNamed(s, code, pattern) == RemoveRows(s, RoutesWithCode(s, code), OrdersWithPrefix(s, prefix))
  {
    var routes, orders := RoutesWithCode(s, code), OrdersWithPrefix(s, prefix);
    var t := DeleteRoutes(s, routes);
    assert OrdersLike(t, pattern) == orders;
    assert StopsOfOrders(t, orders) == StopsOfOrders(s, orders);
    DeleteOrdersExact(t, orders);
    assert t.routes - {} == t.routes;
    var u := RemoveRows(t, {}, orders);
    assert u.routeStops == t.routeStops;
  }

  /** The slot's purge removes exactly the slot's rows: no cascade and no SET NULL leaves the slot. */
  lemma PurgeRemovesSlotOnly(s: Store, slot: Slot)
    requires AtHome(s, slot)
    ensures Purge(s, slot) == RemoveRows(s, RoutesWithCode(s, slot.RouteCode()), OrdersWithPrefix(s, slot.OrderPrefix()))
  {
    forall o | o in s.orders
      ensures Like(s.orders[o].orderId, slot.OrderPattern()) <==> slot.OrderPrefix() <= s.orders[o].orderId
    {
      PurgePatternIsPrefix(slot, s.orders[o].orderId);
    }
    PurgeNamedExact(s, slot.RouteCode(), slot.OrderPrefix(), slot.OrderPattern());
  }

  // ---- Every step keeps the database's constraints ----

  lemma DeleteRoutesValid(s: Store, gone: set<Id>)
    requires Valid(s)
    ensures Valid(DeleteRoutes(s, gone))
  {
  }

  lemma DeleteOrdersRefers(s: Store, gone: set<Id>)
    requires ReferencesHold(s)
    ensures ReferencesHold(DeleteOrders(s, gone))
  {
    var t := DeleteOrders(s, gone);
    assert RoutesRefer(t);
    assert RouteStopsRefer(t);
    assert DeliveryStopsRefer(t);
    DeleteOrdersPackages(s, gone);
  }

  lemma DeleteOrdersPackages(s: Store, gone: set<Id>)
    requires PackagesRefer(s)
    ensures PackagesRefer(DeleteOrders(s, gone))
  {
  }

  lemma DeleteOrdersValid(s: Store, gone: set<Id>)
    requires Valid(s)
    ensures Valid(DeleteOrders(s, gone))
  {
    DeleteOrdersRefers(s, gone);
  }

  lemma PurgeValid(s: Store, slot: Slot)
    requires Valid(s)
    ensures Valid(Purge(s, slot))
  {
    var t := DeleteRoutes(s, RoutesWithCode(s, slot.RouteCode()));
    DeleteRoutesValid(s, RoutesWithCode(s, slot.RouteCode()));
    DeleteOrdersValid(t, OrdersLike(t, slot.OrderPattern()));
  }

  lemma DemoteValid(s: Store, driver: Id, depot: Id, day: Date, keepCode: string)
    requires Valid(s)
    ensures Valid(Demote(s, driver, depot, day, keepCode))
  {
  }

  lemma PlanShape(s: Store, depot: Id, day: Date)
    requires PlansUnique(s) && forall q :: q in s.plans ==> q < s.nextId
    ensures var (t, p, created) := GetOrCreatePlan(s, depot, day);
      && t == s.(plans := t.plans, nextId := t.nextId) && t.nextId >= s.nextId
      && p in t.plans && t.plans[p] == Plan(depot, day)
      && PlansUnique(t) && s.plans.Keys <= t.plans.Keys && (forall q :: q in t.plans ==> q < t.nextId)
  {
  }

  lemma MorePlansValid(s: Store, t: Store)
    requires Valid(s) && t == s.(plans := t.plans, nextId := t.nextId) && t.nextId >= s.nextId
    requires PlansUnique(t) && s.plans.Keys <= t.plans.Keys && forall q :: q in t.plans ==> q < t.nextId
    ensures Valid(t)
  {
  }

  lemma PlanRows(s: Store)
    requires Valid(s)
    ensures PlansUnique(s) && forall p :: p in s.plans ==> p < s.nextId
  {
  }

  lemma GetOrCreatePlanValid(s: Store, depot: Id, day: Date)
    requires Valid(s)
    ensures var (t, p, created) := GetOrCreatePlan(s, depot, day);
      Valid(t) && p in t.plans && t.plans[p] == Plan(depot, day)
  {
    hide Valid, GetOrCreatePlan, PlansUnique;
    PlanRows(s);
    PlanShape(s, depot, day);
    MorePlansValid(s, GetOrCreatePlan(s, depot, day).0);
  }

  lemma WithStopUnique(s: Store, route: Id, x: StopSpec)
    requires OrdersUnique(s) && TrackingUnique(s) && Unused(s, x)
    ensures OrdersUnique(WithStop(s, route, x)) && TrackingUnique(WithStop(s, route, x))
  {
  }

  lemma WithStopRefers(s: Store, route: Id, x: StopSpec)
    requires ReferencesHold(s) && IdsBelow(s) && route in s.routes
    ensures ReferencesHold(WithStop(s, route, x))
  {
    var t := WithStop(s, route, x);
    assert RouteStopsRefer(t);
    assert DeliveryStopsRefer(t);
    assert PackagesRefer(t);
  }

  lemma WithStopValid(s: Store, route: Id, x: StopSpec)
    requires Valid(s) && route in s.routes && Unused(s, x)
    ensures Valid(WithStop(s, route, x))
  {
    hide ReferencesHold, OrdersUnique, TrackingUnique, Unused;
    WithStopUnique(s, route, x);
    WithStopRefers(s, route, x);
  }

  lemma {:induction false} AddStopsValid(s: Store, route: Id, xs: seq<StopSpec>)
    requires Valid(s) && route in s.routes
    ensures AddStops(s, route, xs).Some? ==> Valid(AddStops(s, route, xs).value)
  {
    if xs != [] {
      AddStopsValid(s, route, xs[..|xs| - 1]);
      AddStopsKeepsRoutes(s, route, xs[..|xs| - 1]);
      if AddStops(s, route, xs).Some? {
        WithStopValid(AddStops(s, route, xs[..|xs| - 1]).value, route, xs[|xs| - 1]);
      }
    }
  }

  ghost predicate CodeUnused(s: Store, code: string) {
    forall r :: r in s.routes ==> s.routes[r].code != code
  }

  lemma WithRouteValid(s: Store, row: Route)
    requires Valid(s) && Refers(row.plan, s.plans) && CodeUnused(s, row.code)
    ensures Valid(WithRoute(s, row))
  {
  }

  lemma AppendReturnValid(s: Store, route: Id, x: StopSpec)
    requires Valid(s) && route in s.routes
    ensures AppendReturn(s, route, x).Some? ==> Valid(AppendReturn(s, route, x).value)
  {
    if AddStop(s, route, x).Some? {
      var t := WithStop(s, route, x);
      WithStopValid(s, route, x);
      var row := t.routes[route];
      CountedValid(t, route, row.totalStops + 1);
    }
  }

  lemma CountedRefers(s: Store, route: Id, total: int)
    requires ReferencesHold(s) && route in s.routes
    ensures ReferencesHold(s.(routes := s.routes[route := s.routes[route].(totalStops := total)]))
  {
    assert RoutesRefer(s.(routes := s.routes[route := s.routes[route].(totalStops := total)]));
  }

  lemma CountedValid(s: Store, route: Id, total: int)
    requires Valid(s) && route in s.routes
    ensures Valid(s.(routes := s.routes[route := s.routes[route].(totalStops := total)]))
  {
    hide ReferencesHold;
    CountedRefers(s, route, total);
  }

  lemma InsertGraphValid(s: Store, g: Graph)
    requires Valid(s) && Refers(g.row.plan, s.plans) && CodeUnused(s, g.row.code)
    ensures InsertGraph(s, g).Some? ==> Valid(InsertGraph(s, g).value)
  {
    hide Valid, AddStops, AppendReturn, CodeUnused;
    var route, r := s.nextId, WithRoute(s, g.row);
    WithRouteValid(s, g.row);
    AddStopsValid(r, route, g.operations);
    AddStopsKeepsRoutes(r, route, g.operations);
    if AddStops(r, route, g.operations).Some? && g.back.Some? {
      AppendReturnValid(AddStops(r, route, g.operations).value, route, g.back.value);
    }
  }

  lemma PurgeDropsRoutes(s: Store, slot: Slot)
    ensures Purge(s, slot).routes == s.routes - RoutesWithCode(s, slot.RouteCode())
    ensures Purge(s, slot).plans == s.plans && Purge(s, slot).manifests == s.manifests
    ensures Purge(s, slot).nextId == s.nextId
    ensures CodeUnused(Purge(s, slot), slot.RouteCode())
  {
  }

  lemma MakeRoomValid(s: Store, a: SeedArgs)
    requires Valid(s)
    ensures Valid(MakeRoom(s, a)) && CodeUnused(MakeRoom(s, a), a.slot.RouteCode())
  {
    PurgeValid(s, a.slot);
    PurgeDropsRoutes(s, a.slot);
    DemoteValid(Purge(s, a.slot), a.driver, a.depot, a.slot.day, a.slot.RouteCode());
  }

  lemma PrepareValid(s: Store, a: SeedArgs)
    requires Valid(s)
    ensures var (t, plan, created) := Prepare(s, a);
      && Valid(t) && plan in t.plans && t.plans[plan] == Plan(a.depot, a.slot.day)
      && CodeUnused(t, a.slot.RouteCode())
  {
    MakeRoomValid(s, a);
    GetOrCreatePlanValid(MakeRoom(s, a), a.depot, a.slot.day);
  }

  lemma ManifestsValid(s: Store, manifests: map<ScenarioKey, Manifest>)
    requires Valid(s)
    ensures Valid(s.(manifests := manifests))
  {
  }

  lemma SeedValid(s: Store, a: SeedArgs)
    requires Valid(s)
    ensures Seed(s, a).Some? ==> Valid(Seed(s, a).value)
  {
    hide Valid, Prepare, InsertGraph, SeedArgs.NewGraph, CodeUnused;
    var (t, plan, created) := Prepare(s, a);
    PrepareValid(s, a);
    GraphRow(a, plan);
    InsertGraphValid(t, a.NewGraph(plan));
    if Seed(s, a).Some? {
      ManifestsValid(InsertGraph(t, a.NewGraph(plan)).value, Seed(s, a).value.manifests);
    }
  }

  lemma GraphRow(a: SeedArgs, plan: Id)
    ensures a.NewGraph(plan).row.code == a.slot.RouteCode() && a.NewGraph(plan).row.plan == Some(plan)
  {
  }

  lemma IdlePlanDelete(s: Store, p: Id)
    requires !PlanInUse(s, p)
    ensures DeletePlan(s, p).plans == s.plans - {p}
    ensures DeletePlan(s, p) == s.(plans := s.plans - {p})
  {
    var users := set r | r in s.routes && s.routes[r].plan == Some(p);
    assert users == {};
    assert DeleteRoutes(s, users).routeStops == s.routeStops;
    assert s.routes - {} == s.routes;
  }

  lemma IdlePlanValid(s: Store, p: Id)
    requires Valid(s) && !PlanInUse(s, p)
    ensures Valid(s.(plans := s.plans - {p}))
  {
    var u := s.(plans := s.plans - {p});
    assert RoutesRefer(u) by {
      forall r | r in u.routes ensures Refers(u.routes[r].plan, u.plans) {
        assert s.routes[r].plan != Some(p);
      }
    }
  }

  /** clear deletes only a plan that its manifest records as script-created and that no route uses: nothing cascades. */
  lemma DroppedPlanIsIdle(s: Store, key: ScenarioKey)
    requires Valid(s)
    ensures var drop := PlanToDrop(s, key);
      drop.Some? ==>
        && key in s.manifests && s.manifests[key].planCreatedByScript && drop.value == s.manifests[key].plan
        && DeletePlan(s, drop.value) == s.(plans := s.plans - {drop.value})
        && Valid(DeletePlan(s, drop.value))
  {
    var drop := PlanToDrop(s, key);
    if drop.Some? {
      IdlePlanDelete(s, drop.value);
      IdlePlanValid(s, drop.value);
    }
  }

  lemma ClearValid(s: Store, slot: Slot)
    requires Valid(s)
    ensures Valid(Clear(s, slot))
  {
    PurgeValid(s, slot);
    DroppedPlanIsIdle(Purge(s, slot), slot.key);
  }

  lemma ApplyValid(s: Store, step: Step)
    requires Valid(s)
    ensures Valid(Apply(s, step))
  {
    match step
    case SeedStep(a) => SeedValid(s, a);
    case ClearStep(slot) => ClearValid(s, slot);
  }

  /** Referential integrity and uniqueness over every run. */
  lemma {:induction false} RunValid(s: Store, steps: seq<Step>)
    requires Valid(s)
    ensures Valid(Run(s, steps))
    decreases |steps|
  {
    if steps != [] {
      ApplyValid(s, steps[0]);
      RunValid(Apply(s, steps[0]), steps[1..]);
    }
  }

  // ---- Slots stay at home over every run ----

  lemma DeleteRoutesAtHome(s: Store, gone: set<Id>, code: string, prefix: string)
    requires RouteStopsRefer(s) && AtHomeNamed(s, code, prefix)
    ensures AtHomeNamed(DeleteRoutes(s, gone), code, prefix)
  {
    var t := DeleteRoutes(s, gone);
    assert OrdersWithPrefix(t, prefix) == OrdersWithPrefix(s, prefix);
    assert StopsOfOrders(t, OrdersWithPrefix(t, prefix)) == StopsOfOrders(s, OrdersWithPrefix(s, prefix));
  }

  lemma DeleteOrdersAtHome(s: Store, gone: set<Id>, code: string, prefix: string)
    requires AtHomeNamed(s, code, prefix)
    ensures AtHomeNamed(DeleteOrders(s, gone), code, prefix)
  {
    hide OrdersWithPrefix, RoutesWithCode;
    DeleteOrdersSets(s, gone, code, prefix);
  }

  lemma DeleteOrdersSets(s: Store, gone: set<Id>, code: string, prefix: string)
    ensures var t := DeleteOrders(s, gone);
      && OrdersWithPrefix(t, prefix) == OrdersWithPrefix(s, prefix) - gone
      && StopsOfOrders(t, OrdersWithPrefix(t, prefix)) <= StopsOfOrders(s, OrdersWithPrefix(s, prefix))
      && RoutesWithCode(t, code) == RoutesWithCode(s, code)
  {
  }

  lemma PurgeAtHome(s: Store, a: Slot, b: Slot)
    requires Valid(s) && AtHome(s, b)
    ensures AtHome(Purge(s, a), b)
  {
    var gone := RoutesWithCode(s, a.RouteCode());
    var t := DeleteRoutes(s, gone);
    DeleteRoutesAtHome(s, gone, b.RouteCode(), b.OrderPrefix());
    DeleteOrdersAtHome(t, OrdersLike(t, a.OrderPattern()), b.RouteCode(), b.OrderPrefix());
  }

  /** A store with the same stops, orders and packages, and routes with the same codes. */
  ghost predicate SameCodes(s: Store, t: Store) {
    && t.routeStops == s.routeStops && t.orders == s.orders
    && t.deliveryStops == s.deliveryStops && t.packages == s.packages
    && (forall r :: r in s.routes ==> r in t.routes && t.routes[r].code == s.routes[r].code)
  }

  lemma SameCodesAtHome(s: Store, t: Store, code: string, prefix: string)
    requires SameCodes(s, t) && AtHomeNamed(s, code, prefix)
    ensures AtHomeNamed(t, code, prefix)
  {
  }

  lemma WithStopSets(s: Store, route: Id, x: StopSpec, code: string, prefix: string)
    requires IdsBelow(s) && DeliveryStopsRefer(s)
    ensures var t, n := WithStop(s, route, x), s.nextId;
      var own := prefix <= x.orderId;
      && RoutesWithCode(t, code) == RoutesWithCode(s, code)
      && OrdersWithPrefix(t, prefix) == OrdersWithPrefix(s, prefix) + (if own then {n} else {})
      && StopsOfOrders(t, OrdersWithPrefix(t, prefix))
         == StopsOfOrders(s, OrdersWithPrefix(s, prefix)) + (if own then {n + 1} else {})
  {
    var t, n := WithStop(s, route, x), s.nextId;
    var own := prefix <= x.orderId;
    assert OrdersWithPrefix(t, prefix) == OrdersWithPrefix(s, prefix) + (if own then {n} else {});
  }

  lemma WithStopKeepsStops(s: Store, route: Id, x: StopSpec, routes: set<Id>, stops: set<Id>, own: bool)
    requires IdsBelow(s) && RouteStopsRefer(s) && StopsAtHome(s, routes, stops)
    requires own ==> route in routes
    requires s.nextId + 1 !in stops
    ensures StopsAtHome(WithStop(s, route, x), routes, stops + (if own then {s.nextId + 1} else {}))
  {
  }

  lemma WithStopKeepsPickups(s: Store, route: Id, x: StopSpec, routes: set<Id>, orders: set<Id>, own: bool)
    requires IdsBelow(s) && RouteStopsRefer(s) && PickupsAtHome(s, routes, orders)
    ensures PickupsAtHome(WithStop(s, route, x), routes, orders + (if own then {s.nextId} else {}))
  {
  }

  lemma WithStopKeepsPackages(s: Store, route: Id, x: StopSpec, orders: set<Id>, stops: set<Id>, own: bool)
    requires IdsBelow(s) && PackagesRefer(s) && PackagesAtHome(s, orders, stops)
    requires s.nextId + 1 !in stops
    ensures PackagesAtHome(WithStop(s, route, x), orders + (if own then {s.nextId} else {}),
                           stops + (if own then {s.nextId + 1} else {}))
  {
  }

  lemma WithStopAtHome(s: Store, route: Id, x: StopSpec, code: string, prefix: string)
    requires Valid(s) && AtHomeNamed(s, code, prefix) && route in s.routes
    requires prefix <= x.orderId ==> s.routes[route].code == code
    ensures AtHomeNamed(WithStop(s, route, x), code, prefix)
  {
    var routes, orders := RoutesWithCode(s, code), OrdersWithPrefix(s, prefix);
    var stops, own := StopsOfOrders(s, orders), prefix <= x.orderId;
    WithStopSets(s, route, x, code, prefix);
    WithStopKeepsStops(s, route, x, routes, stops, own);
    WithStopKeepsPickups(s, route, x, routes, orders, own);
    WithStopKeepsPackages(s, route, x, orders, stops, own);
  }

  lemma {:induction false} AddStopsAtHome(s: Store, route: Id, xs: seq<StopSpec>, code: string, prefix: string)
    requires Valid(s) && AtHomeNamed(s, code, prefix) && route in s.routes
    requires forall x :: x in xs && prefix <= x.orderId ==> s.routes[route].code == code
    ensures AddStops(s, route, xs).Some? ==> AtHomeNamed(AddStops(s, route, xs).value, code, prefix)
  {
    hide AtHomeNamed, Valid, Unused;
    if xs != [] {
      var init := xs[..|xs| - 1];
      AddStopsAtHome(s, route, init, code, prefix);
      AddStopsValid(s, route, init);
      AddStopsKeepsRoutes(s, route, init);
      if AddStops(s, route, xs).Some? {
        WithStopAtHome(AddStops(s, route, init).value, route, xs[|xs| - 1], code, prefix);
      }
    }
  }

  lemma AppendReturnAtHome(s: Store, route: Id, x: StopSpec, code: string, prefix: string)
    requires Valid(s) && AtHomeNamed(s, code, prefix) && route in s.routes
    requires prefix <= x.orderId ==> s.routes[route].code == code
    ensures AppendReturn(s, route, x).Some? ==> AtHomeNamed(AppendReturn(s, route, x).value, code, prefix)
  {
    if AppendReturn(s, route, x).Some? {
      var u := WithStop(s, route, x);
      WithStopAtHome(s, route, x, code, prefix);
      SameCodesAtHome(u, AppendReturn(s, route, x).value, code, prefix);
    }
  }

  lemma WithRouteSameCodes(s: Store, row: Route)
    requires Valid(s)
    ensures SameCodes(s, WithRoute(s, row))
  {
  }

  lemma InsertGraphAtHome(s: Store, g: Graph, code: string, prefix: string)
    requires Valid(s) && AtHomeNamed(s, code, prefix)
    requires Refers(g.row.plan, s.plans) && CodeUnused(s, g.row.code)
    requires forall x :: x in g.operations && prefix <= x.orderId ==> g.row.code == code
    requires g.back.Some? && prefix <= g.back.value.orderId ==> g.row.code == code
    ensures InsertGraph(s, g).Some? ==> AtHomeNamed(InsertGraph(s, g).value, code, prefix)
  {
    hide Valid, AtHomeNamed, SameCodes, CodeUnused, AddStops, AppendReturn;
    var route, r := s.nextId, WithRoute(s, g.row);
    WithRouteValid(s, g.row);
    WithRouteSameCodes(s, g.row);
    SameCodesAtHome(s, r, code, prefix);
    AddStopsAtHome(r, route, g.operations, code, prefix);
    AddStopsKeepsRoutes(r, route, g.operations);
    AddStopsValid(r, route, g.operations);
    if AddStops(r, route, g.operations).Some? && g.back.Some? {
      AppendReturnAtHome(AddStops(r, route, g.operations).value, route, g.back.value, code, prefix);
    }
  }

  lemma GraphOrderIds(a: SeedArgs, plan: Id)
    ensures var g := a.NewGraph(plan);
      && (forall x :: x in g.operations ==> exists n: nat :: x.orderId == a.slot.OrderId(n, ""))
      && (g.back.Some? ==> g.back.value.orderId == a.slot.OrderId(a.Operational() + 1, RETURN_SUFFIX))
  {
    hide Slot.OrderId, Slot.MasterLabel, Slot.TrackingId, Slot.RouteCode;
    var g := a.NewGraph(plan);
    forall x | x in g.operations ensures exists n: nat :: x.orderId == a.slot.OrderId(n, "") {
      var i :| 0 <= i < |g.operations| && g.operations[i] == x;
      assert x.orderId == a.slot.OrderId(i + 1, "");
    }
  }

  /** Every id a graph prints belongs to its slot, and to no other. */
  lemma GraphIdsOwn(a: SeedArgs, plan: Id, b: Slot)
    ensures var g := a.NewGraph(plan);
      && (forall x :: x in g.operations ==> (b.OrderPrefix() <= x.orderId <==> SameSlot(a.slot, b)))
      && (g.back.Some? ==> (b.OrderPrefix() <= g.back.value.orderId <==> SameSlot(a.slot, b)))
  {
    hide Slot.OrderPrefix, Slot.OrderId, SameSlot, SeedArgs.NewGraph;
    var g := a.NewGraph(plan);
    GraphOrderIds(a, plan);
    forall x | x in g.operations ensures b.OrderPrefix() <= x.orderId <==> SameSlot(a.slot, b) {
      var n: nat :| x.orderId == a.slot.OrderId(n, "");
      PrintedOrderOwner(a.slot, b, n, "");
    }
    PrintedOrderOwner(a.slot, b, a.Operational() + 1, RETURN_SUFFIX);
  }

  lemma PrintedOrderOwner(a: Slot, b: Slot, n: nat, suffix: string)
    ensures b.OrderPrefix() <= a.OrderId(n, suffix) <==> SameSlot(a, b)
  {
    PurgePatternIsPrefix(b, a.OrderId(n, suffix));
    PurgeMatchesOwnIdsOnly(b, a, n, suffix);
  }

  lemma DemoteSameCodes(s: Store, driver: Id, depot: Id, day: Date, keepCode: string)
    ensures SameCodes(s, Demote(s, driver, depot, day, keepCode))
  {
  }

  lemma MakeRoomAtHome(s: Store, a: SeedArgs, b: Slot)
    requires Valid(s) && AtHome(s, b)
    ensures AtHome(MakeRoom(s, a), b)
  {
    var p := Purge(s, a.slot);
    PurgeAtHome(s, a.slot, b);
    DemoteSameCodes(p, a.driver, a.depot, a.slot.day, a.slot.RouteCode());
    SameCodesAtHome(p, MakeRoom(s, a), b.RouteCode(), b.OrderPrefix());
  }

  lemma PlanSameCodes(s: Store, depot: Id, day: Date)
    ensures SameCodes(s, GetOrCreatePlan(s, depot, day).0)
  {
  }

  lemma PrepareAtHome(s: Store, a: SeedArgs, b: Slot)
    requires Valid(s) && AtHome(s, b)
    ensures AtHome(Prepare(s, a).0, b)
  {
    var m := MakeRoom(s, a);
    MakeRoomAtHome(s, a, b);
    PlanSameCodes(m, a.depot, a.slot.day);
    SameCodesAtHome(m, Prepare(s, a).0, b.RouteCode(), b.OrderPrefix());
  }

  lemma SeedAtHome(s: Store, a: SeedArgs, b: Slot)
    requires Valid(s) && AtHome(s, b)
    ensures Seed(s, a).Some? ==> AtHome(Seed(s, a).value, b)
  {
    var (t, plan, created) := Prepare(s, a);
    PrepareValid(s, a);
    PrepareAtHome(s, a, b);
    GraphIdsOwn(a, plan, b);
    if SameSlot(a.slot, b) {
      SameSlotSamePrefix(a.slot, b);
    }
    var g := a.NewGraph(plan);
    InsertGraphAtHome(t, g, b.RouteCode(), b.OrderPrefix());
    if InsertGraph(t, g).Some? {
      SameCodesAtHome(InsertGraph(t, g).value, Seed(s, a).value, b.RouteCode(), b.OrderPrefix());
    }
  }

  lemma ApplyAtHome(s: Store, step: Step, b: Slot)
    requires Valid(s) && AtHome(s, b)
    ensures AtHome(Apply(s, step), b)
  {
    match step
    case SeedStep(a) => SeedAtHome(s, a, b);
    case ClearStep(slot) =>
      var p := Purge(s, slot);
      PurgeValid(s, slot);
      PurgeAtHome(s, slot, b);
      DroppedPlanIsIdle(p, slot.key);
      SameCodesAtHome(p, Clear(s, slot), b.RouteCode(), b.OrderPrefix());
  }

  /** A slot whose orders are reached only from its own route stays that way in every run, of any slots. */
  lemma {:induction false} RunAtHome(s: Store, steps: seq<Step>, b: Slot)
    requires Valid(s) && AtHome(s, b)
    ensures AtHome(Run(s, steps), b)
    decreases |steps|
  {
    if steps != [] {
      ApplyValid(s, steps[0]);
      ApplyAtHome(s, steps[0], b);
      RunAtHome(Apply(s, steps[0]), steps[1..], b);
    }
  }
}
