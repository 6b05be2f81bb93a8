/** What one seed or clear writes, leaves alone and undoes. */
module AssignFrame {
  import opened Outcomes
  import opened Numerals
  import opened Calendar
  import opened AssignIds
  import opened AssignStore
  import opened AssignRuns
  import opened AssignActive

  // ---- The rows a graph consists of ----

  ghost predicate Extends<T>(m: map<Id, T>, n: map<Id, T>) {
    forall i :: i in m ==> i in n && n[i] == m[i]
  }

  /** The rows of the i-th inserted stop; five ids a stop, in insertion order. */
  ghost predicate RowsOf(u: Store, first: Id, route: Id, x: StopSpec) {
    && first in u.orders
    && u.orders[first] == Order(x.orderId, x.masterLabel, x.organization, Some(x.customer), x.pickup, x.orderStatus)
    && first + 1 in u.deliveryStops
    && u.deliveryStops[first + 1] == DeliveryStop(first, x.trackingId, x.stopStatus, x.day)
    && first + 2 in u.routeStops
    && u.routeStops[first + 2] == RouteStop(route, Some(first + 1), None, x.sequence, READY, x.flow)
    && first + 3 in u.packages && u.packages[first + 3] == Package(first, Some(first + 1), x.packageStatus)
    && first + 4 in u.packages && u.packages[first + 4] == Package(first, Some(first + 1), x.packageStatus)
  }

  ghost predicate GrownOrders(s: Store, u: Store, prefix: string) {
    && Extends(s.orders, u.orders)
    && (forall i :: i in u.orders && i !in s.orders ==> i >= s.nextId && prefix <= u.orders[i].orderId)
  }

  ghost predicate GrownDeliveryStops(s: Store, u: Store) {
    && Extends(s.deliveryStops, u.deliveryStops)
    && (forall i :: i in u.deliveryStops && i !in s.deliveryStops ==> u.deliveryStops[i].order >= s.nextId)
  }

  ghost predicate GrownRouteStops(s: Store, u: Store, route: Id) {
    && Extends(s.routeStops, u.routeStops)
    && (forall i :: i in u.routeStops && i !in s.routeStops ==> u.routeStops[i].route == route)
  }

  ghost predicate GrownPackages(s: Store, u: Store) {
    && Extends(s.packages, u.packages)
    && (forall i :: i in u.packages && i !in s.packages ==> u.packages[i].order >= s.nextId)
  }

  /** u is s with rows added: orders named by the prefix, their stops and packages, and stops of one route. */
  ghost predicate Grown(s: Store, u: Store, route: Id, prefix: string) {
    && u.plans == s.plans && u.manifests == s.manifests && u.nextId >= s.nextId
    && GrownOrders(s, u, prefix) && GrownDeliveryStops(s, u) && GrownRouteStops(s, u, route) && GrownPackages(s, u)
  }

  lemma WithStopGrown(s: Store, t: Store, route: Id, x: StopSpec, prefix: string)
    requires Grown(s, t, route, prefix) && IdsBelow(s) && IdsBelow(t) && prefix <= x.orderId
    ensures Grown(s, WithStop(t, route, x), route, prefix)
  {
    WithStopGrownOrders(s, t, route, x, prefix);
    WithStopGrownStops(s, t, route, x);
    WithStopGrownPackages(s, t, route, x);
  }

  lemma WithStopGrownOrders(s: Store, t: Store, route: Id, x: StopSpec, prefix: string)
    requires GrownOrders(s, t, prefix) && IdsBelow(t) && prefix <= x.orderId && t.nextId >= s.nextId
    ensures GrownOrders(s, WithStop(t, route, x), prefix)
  {
  }

  lemma WithStopGrownStops(s: Store, t: Store, route: Id, x: StopSpec)
    requires GrownDeliveryStops(s, t) && GrownRouteStops(s, t, route) && IdsBelow(t) && t.nextId >= s.nextId
    ensures GrownDeliveryStops(s, WithStop(t, route, x)) && GrownRouteStops(s, WithStop(t, route, x), route)
  {
  }

  lemma WithStopGrownPackages(s: Store, t: Store, route: Id, x: StopSpec)
    requires GrownPackages(s, t) && IdsBelow(t) && t.nextId >= s.nextId
    ensures GrownPackages(s, WithStop(t, route, x))
  {
  }

  lemma WithStopRows(t: Store, route: Id, x: StopSpec)
    ensures RowsOf(WithStop(t, route, x), t.nextId, route, x)
  {
  }

  lemma RowsOfKept(t: Store, route: Id, x: StopSpec, first: Id, r: Id, y: StopSpec)
    requires IdsBelow(t) && RowsOf(t, first, r, y)
    ensures RowsOf(WithStop(t, route, x), first, r, y)
  {
  }

  lemma {:induction false} AddStopsGrown(s: Store, route: Id, xs: seq<StopSpec>, prefix: string)
    requires Valid(s) && route in s.routes
    requires forall x :: x in xs ==> prefix <= x.orderId
    ensures AddStops(s, route, xs).Some? ==>
      var u := AddStops(s, route, xs).value;
      && Grown(s, u, route, prefix)
      && forall i :: 0 <= i < |xs| ==> RowsOf(u, s.nextId + 5 * i, route, xs[i])
  {
    hide Valid, RowsOf, Unused, Grown, WithStop;
    if xs == [] {
      ValidGrown(s, route, prefix);
    } else {
      var init, x := xs[..|xs| - 1], xs[|xs| - 1];
      AddStopsGrown(s, route, init, prefix);
      AddStopsValid(s, route, init);
      AddStopsKeepsRoutes(s, route, init);
      if AddStops(s, route, xs).Some? {
        var t := AddStops(s, route, init).value;
        ValidIds(s);
        ValidIds(t);
        WithStopGrown(s, t, route, x, prefix);
        WithStopRows(t, route, x);
        forall i | 0 <= i < |xs| ensures RowsOf(WithStop(t, route, x), s.nextId + 5 * i, route, xs[i]) {
          if i < |init| {
            RowsOfKept(t, route, x, s.nextId + 5 * i, route, init[i]);
          }
        }
      }
    }
  }

  lemma ValidGrown(s: Store, route: Id, prefix: string)
    ensures Grown(s, s, route, prefix)
  {
  }

  lemma ValidIds(s: Store)
    requires Valid(s)
    ensures IdsBelow(s)
  {
  }

  /** All stops of a graph, the RETURN stop last. */
  function Specs(g: Graph): seq<StopSpec> {
    g.operations + (if g.back.Some? then [g.back.value] else [])
  }

  /** The route's counter is in range, before and after the RETURN stop is counted once more. */
  predicate CounterFits(g: Graph) {
    IsInteger(g.row.totalStops) && IsInteger(FinalRow(g).totalStops)
  }

  /** Inserting a graph is inserting its route and all its stops, and counting the RETURN stop once more. */
  lemma InsertGraphIsStops(s: Store, g: Graph)
    ensures var stops := AddStops(WithRoute(s, g.row), s.nextId, Specs(g));
      InsertGraph(s, g) ==
        if stops.None? || !CounterFits(g) then None
        else Some(stops.value.(routes := stops.value.routes[s.nextId := FinalRow(g)]))
  {
    hide FinalRow, WithRoute;
    var r, route, xs := WithRoute(s, g.row), s.nextId, Specs(g);
    AddStopsKeepsRoutes(r, route, g.operations);
    WithRouteRow(s, g.row);
    FinalRowIs(g);
    if g.back.Some? {
      assert xs[..|xs| - 1] == g.operations;
      assert xs[|xs| - 1] == g.back.value;
    } else {
      assert xs == g.operations;
      if AddStops(r, route, xs).Some? {
        assert r.routes[route := g.row] == r.routes;
      }
    }
  }

  lemma WithRouteRow(s: Store, row: Route)
    ensures s.nextId in WithRoute(s, row).routes && WithRoute(s, row).routes[s.nextId] == row
  {
  }

  lemma FinalRowIs(g: Graph)
    ensures FinalRow(g) == g.row.(totalStops := g.row.totalStops + if g.back.Some? then 1 else 0)
  {
  }

  /** Growth looks at no route. */
  lemma GrownOtherRoutes(s: Store, r: Store, t: Store, u: Store, route: Id, prefix: string)
    requires Grown(r, t, route, prefix) && r == s.(routes := r.routes, nextId := r.nextId) && r.nextId >= s.nextId
    requires u == t.(routes := u.routes)
    ensures Grown(s, u, route, prefix)
  {
  }

  lemma InsertGraphGrown(s: Store, g: Graph, prefix: string)
    requires Valid(s) && Refers(g.row.plan, s.plans) && CodeUnused(s, g.row.code)
    requires forall x :: x in Specs(g) ==> prefix <= x.orderId
    ensures InsertGraph(s, g).Some? ==>
      var u := InsertGraph(s, g).value;
      && Grown(s, u, s.nextId, prefix)
      && u.routes == s.routes[s.nextId := FinalRow(g)]
      && u.nextId == s.nextId + 1 + 5 * |Specs(g)|
      && forall i :: 0 <= i < |Specs(g)| ==> RowsOf(u, s.nextId + 1 + 5 * i, s.nextId, Specs(g)[i])
  {
    hide Valid, RowsOf, FinalRow, Grown, Unused, AddStops, CodeUnused, Specs, InsertGraph, Refers;
    var r := WithRoute(s, g.row);
    WithRouteValid(s, g.row);
    AddStopsGrown(r, s.nextId, Specs(g), prefix);
    AddStopsKeepsRoutes(r, s.nextId, Specs(g));
    InsertGraphIsStops(s, g);
    if InsertGraph(s, g).Some? {
      var t, u := AddStops(r, s.nextId, Specs(g)).value, InsertGraph(s, g).value;
      GrownOtherRoutes(s, r, t, u, s.nextId, prefix);
      forall i | 0 <= i < |Specs(g)| ensures RowsOf(u, s.nextId + 1 + 5 * i, s.nextId, Specs(g)[i]) {
        RowsOfTables(t, u, s.nextId + 1 + 5 * i, s.nextId, Specs(g)[i]);
      }
    }
  }

  lemma RowsOfTables(t: Store, u: Store, first: Id, route: Id, x: StopSpec)
    requires RowsOf(t, first, route, x)
    requires u.orders == t.orders && u.deliveryStops == t.deliveryStops
    requires u.routeStops == t.routeStops && u.packages == t.packages
    ensures RowsOf(u, first, route, x)
  {
  }

  // ---- Purge undoes insert ----

  ghost predicate SlotFree(s: Store, slot: Slot) {
    CodeUnused(s, slot.RouteCode()) && OrdersWithPrefix(s, slot.OrderPrefix()) == {}
  }

  lemma RemoveGrown(s: Store, u: Store, route: Id, code: string, prefix: string)
    requires IdsBelow(s) && ReferencesHold(s) && ReferencesHold(u)
    requires CodeUnused(s, code) && OrdersWithPrefix(s, prefix) == {}
    requires Grown(s, u, route, prefix) && route == s.nextId && route in u.routes
    requires u.routes == s.routes[route := u.routes[route]] && u.routes[route].code == code
    ensures RemoveRows(u, RoutesWithCode(u, code), OrdersWithPrefix(u, prefix)) == s.(nextId := u.nextId)
  {
    hide ReferencesHold, IdsBelow;
    var own := OrdersWithPrefix(u, prefix);
    RemoveGrownOrders(s, u, prefix);
    RemoveGrownRoutes(s, u, route, code);
    RemoveGrownDeliveryStops(s, u, own);
    RemoveGrownRouteStops(s, u, route, own);
    RemoveGrownPackages(s, u, route, own);
    assert RemoveRows(u, {route}, own) == s.(nextId := u.nextId);
  }

  lemma RemoveGrownOrders(s: Store, u: Store, prefix: string)
    requires GrownOrders(s, u, prefix) && OrdersWithPrefix(s, prefix) == {}
    ensures forall i :: i in OrdersWithPrefix(u, prefix) <==> i in u.orders && i !in s.orders
    ensures u.orders - OrdersWithPrefix(u, prefix) == s.orders
  {
    forall i | i in s.orders ensures i !in OrdersWithPrefix(u, prefix) {
      assert i !in OrdersWithPrefix(s, prefix);
    }
  }

  lemma RemoveGrownRoutes(s: Store, u: Store, route: Id, code: string)
    requires IdsBelow(s) && CodeUnused(s, code) && route == s.nextId && route in u.routes
    requires u.routes == s.routes[route := u.routes[route]] && u.routes[route].code == code
    ensures RoutesWithCode(u, code) == {route} && u.routes - {route} == s.routes
  {
  }

  lemma RemoveGrownDeliveryStops(s: Store, u: Store, own: set<Id>)
    requires IdsBelow(s) && ReferencesHold(s) && ReferencesHold(u) && GrownDeliveryStops(s, u)
    requires forall i :: i in own <==> i in u.orders && i !in s.orders
    ensures u.deliveryStops - StopsOfOrders(u, own) == s.deliveryStops
  {
    hide RoutesRefer, RouteStopsRefer, PackagesRefer;
    assert forall d | d in u.deliveryStops :: d in StopsOfOrders(u, own) <==> d !in s.deliveryStops;
  }

  lemma RemoveGrownRouteStops(s: Store, u: Store, route: Id, own: set<Id>)
    requires IdsBelow(s) && ReferencesHold(s) && route == s.nextId && GrownRouteStops(s, u, route)
    ensures RemoveRows(u, {route}, own).routeStops == s.routeStops
  {
    hide RoutesRefer, DeliveryStopsRefer, PackagesRefer, StopsOfOrders;
    assert forall i | i in s.routeStops :: u.routeStops[i].route != route;
  }

  lemma RemoveGrownPackages(s: Store, u: Store, route: Id, own: set<Id>)
    requires IdsBelow(s) && ReferencesHold(s) && ReferencesHold(u) && GrownPackages(s, u)
    requires forall i :: i in own <==> i in u.orders && i !in s.orders
    ensures RemoveRows(u, {route}, own).packages == s.packages
  {
    assert forall p | p in u.packages :: u.packages[p].order !in own <==> p in s.packages;
  }

  lemma MakeRoomSlotFree(s: Store, a: SeedArgs)
    ensures SlotFree(MakeRoom(s, a), a.slot)
  {
    hide DeleteRoutes, Like, Slot.OrderPrefix, Slot.OrderPattern, Slot.RouteCode, ActiveFor;
    var p, m := Purge(s, a.slot), MakeRoom(s, a);
    PurgeDropsRoutes(s, a.slot);
    assert m.orders == p.orders;
    forall o | o in p.orders ensures !(a.slot.OrderPrefix() <= p.orders[o].orderId) {
      PurgePatternIsPrefix(a.slot, p.orders[o].orderId);
    }
  }

  lemma PlanOnlyPlans(s: Store, depot: Id, day: Date)
    requires IdsBelow(s)
    ensures var (t, plan, created) := GetOrCreatePlan(s, depot, day);
      && t == s.(plans := t.plans, nextId := t.nextId) && Extends(s.plans, t.plans) && t.nextId >= s.nextId
      && (!created ==> t == s)
      && (created ==> plan !in s.plans && t.plans - {plan} == s.plans)
  {
  }

  /** What holds just before a seed inserts its graph. */
  ghost predicate Ready(t: Store, a: SeedArgs, plan: Id) {
    Valid(t) && SlotFree(t, a.slot) && AtHome(t, a.slot) && plan in t.plans && t.plans[plan] == Plan(a.depot, a.slot.day)
  }

  lemma PrepareReady(s: Store, a: SeedArgs)
    requires Valid(s) && AtHome(s, a.slot)
    ensures var (t, plan, created) := Prepare(s, a); Ready(t, a, plan)
  {
    hide Valid, AtHome, MakeRoom, CodeUnused, Slot.RouteCode, Slot.OrderPrefix;
    PrepareValid(s, a);
    PrepareAtHome(s, a, a.slot);
    MakeRoomSlotFree(s, a);
    assert OrdersWithPrefix(Prepare(s, a).0, a.slot.OrderPrefix()) == OrdersWithPrefix(MakeRoom(s, a), a.slot.OrderPrefix());
  }

  /** The graph of a seed as it is inserted into a ready store. */
  lemma ReadyInsert(t: Store, a: SeedArgs, plan: Id)
    requires Ready(t, a, plan)
    ensures var g := a.NewGraph(plan);
      InsertGraph(t, g).Some? ==>
        var u := InsertGraph(t, g).value;
        && Valid(u) && AtHome(u, a.slot)
        && Grown(t, u, t.nextId, a.slot.OrderPrefix())
        && u.routes == t.routes[t.nextId := FinalRow(g)] && FinalRow(g).code == a.slot.RouteCode()
        && u.nextId == t.nextId + 1 + 5 * |Specs(g)|
        && (forall i :: 0 <= i < |Specs(g)| ==> RowsOf(u, t.nextId + 1 + 5 * i, t.nextId, Specs(g)[i]))
  {
    hide Valid, AtHomeNamed, Slot.RouteCode, Slot.OrderPrefix, RowsOf, Grown, InsertGraph, CodeUnused;
    var g := a.NewGraph(plan);
    GraphIdsOwn(a, plan, a.slot);
    GraphCode(a, plan);
    assert forall x :: x in Specs(g) ==> x in g.operations || (g.back.Some? && x == g.back.value);
    InsertGraphValid(t, g);
    InsertGraphGrown(t, g, a.slot.OrderPrefix());
    InsertGraphAtHome(t, g, a.slot.RouteCode(), a.slot.OrderPrefix());
  }

  lemma GraphCode(a: SeedArgs, plan: Id)
    ensures a.NewGraph(plan).row.code == a.slot.RouteCode() && FinalRow(a.NewGraph(plan)).code == a.slot.RouteCode()
    ensures a.NewGraph(plan).row.plan == Some(plan)
  {
  }

  /** Purging the slot after a seed gives back the store from just before the insert. */
  lemma PurgeUndoesInsert(t: Store, a: SeedArgs, plan: Id, u: Store)
    requires Ready(t, a, plan) && InsertGraph(t, a.NewGraph(plan)) == Some(u)
    ensures Purge(u, a.slot) == t.(nextId := u.nextId)
  {
    hide AtHomeNamed, Slot.RouteCode, Slot.OrderPrefix, RowsOf, Grown, InsertGraph, RemoveRows, RouteStopsRefer, Purge;
    ReadyInsert(t, a, plan);
    PurgeRemovesSlotOnly(u, a.slot);
    RemoveGrown(t, u, t.nextId, a.slot.RouteCode(), a.slot.OrderPrefix());
  }

  lemma PurgeIgnoresManifests(u: Store, m: map<ScenarioKey, Manifest>, slot: Slot)
    ensures Purge(u.(manifests := m), slot) == Purge(u, slot).(manifests := m)
  {
  }

  lemma SeedParts(s: Store, a: SeedArgs)
    requires Seed(s, a).Some?
    ensures var (t, plan, created) := Prepare(s, a);
      && InsertGraph(t, a.NewGraph(plan)).Some?
      && Seed(s, a).value == InsertGraph(t, a.NewGraph(plan)).value.(
           manifests := t.manifests[a.slot.key := Manifest(plan, created, t.nextId, a.slot.day)])
  {
    hide Prepare, SeedArgs.NewGraph, FinalRow, InsertGraph;
    var (t, plan, created) := Prepare(s, a);
    InsertGraphRoutes(t, a.NewGraph(plan));
  }

  /** Purging a slot after its seed leaves the store from just before the insert, and the new manifest. */
  lemma PurgeAfterSeed(s: Store, a: SeedArgs)
    requires Valid(s) && AtHome(s, a.slot) && Seed(s, a).Some?
    ensures var (t, plan, created) := Prepare(s, a);
      var v := Seed(s, a).value;
      Purge(v, a.slot) == t.(nextId := v.nextId, manifests := v.manifests)
  {
    hide Valid, AtHome, Prepare, Seed, Purge, InsertGraph, Slot.RouteCode, SeedArgs.NewGraph;
    var (t, plan, created) := Prepare(s, a);
    SeedParts(s, a);
    PrepareReady(s, a);
    var u := InsertGraph(t, a.NewGraph(plan)).value;
    PurgeUndoesInsert(t, a, plan, u);
    PurgeIgnoresManifests(u, Seed(s, a).value.manifests, a.slot);
  }

  lemma FreshPlanIdle(s: Store, depot: Id, day: Date)
    requires Valid(s)
    ensures var (t, plan, created) := GetOrCreatePlan(s, depot, day);
      created ==> !PlanInUse(t, plan)
  {
    var (t, plan, created) := GetOrCreatePlan(s, depot, day);
    forall r | r in t.routes && created ensures t.routes[r].plan != Some(plan) {
      assert Refers(s.routes[r].plan, s.plans);
    }
  }

  /** clear undoes the seed before it: the slot's old rows stay removed and the demotions stay, nothing else changes. */
  lemma ClearUndoesSeed(s: Store, a: SeedArgs)
    requires Valid(s) && AtHome(s, a.slot) && Seed(s, a).Some?
    ensures var v := Seed(s, a).value;
      Clear(v, a.slot) == MakeRoom(s, a).(nextId := v.nextId, manifests := s.manifests - {a.slot.key})
  {
    hide Valid, AtHome, MakeRoom, GetOrCreatePlan, Purge, InsertGraph, Slot.RouteCode, SeedArgs.NewGraph, FinalRow, DeletePlan;
    var (t, plan, created) := Prepare(s, a);
    var m, v := MakeRoom(s, a), Seed(s, a).value;
    SeedParts(s, a);
    PurgeAfterSeed(s, a);
    MakeRoomValid(s, a);
    MakeRoomKeepsPlans(s, a);
    ValidIds(m);
    PlanOnlyPlans(m, a.depot, a.slot.day);
    FreshPlanIdle(m, a.depot, a.slot.day);
    PrepareValid(s, a);
    var p := Purge(v, a.slot);
    assert v.manifests - {a.slot.key} == s.manifests - {a.slot.key};
    assert p.routes == t.routes && p.plans == t.plans;
    assert v.manifests[a.slot.key] == Manifest(plan, created, t.nextId, a.slot.day);
    if created {
      assert !PlanInUse(p, plan) by {
        assert !PlanInUse(t, plan);
      }
      IdlePlanDelete(p, plan);
    }
  }

  // ---- The rest of the store ----

  /** A clear removes the slot's rows, its manifest and perhaps one idle plan: every other row is as it was. */
  lemma ClearRemovesSlotOnly(s: Store, slot: Slot)
    requires Valid(s) && AtHome(s, slot)
    ensures var c := Clear(s, slot);
      c == RemoveRows(s, RoutesWithCode(s, slot.RouteCode()), OrdersWithPrefix(s, slot.OrderPrefix())).(
             plans := c.plans, manifests := s.manifests - {slot.key})
      && (forall p :: p in s.plans && p !in c.plans ==>
            slot.key in s.manifests && s.manifests[slot.key].plan == p && s.manifests[slot.key].planCreatedByScript
            && !PlanInUse(c, p))
      && Extends(c.plans, s.plans)
  {
    hide Valid, AtHome, Purge, Slot.RouteCode, Slot.OrderPrefix, DeletePlan, PlanInUse, RemoveRows;
    var p := Purge(s, slot);
    PurgeRemovesSlotOnly(s, slot);
    PurgeDropsRoutes(s, slot);
    PurgeValid(s, slot);
    DroppedPlanIsIdle(p, slot.key);
    IdleAfterClear(s, slot);
  }

  /** A clear deletes a plan exactly when the scenario's manifest claims it and no route of another code is on it. */
  lemma ClearDropsPlanExactly(s: Store, slot: Slot, p: Id)
    requires Valid(s) && p in s.plans
    ensures p !in Clear(s, slot).plans <==>
      && slot.key in s.manifests && s.manifests[slot.key].planCreatedByScript && s.manifests[slot.key].plan == p
      && (forall r | r in s.routes && s.routes[r].plan == Some(p) :: s.routes[r].code == slot.RouteCode())
  {
    hide Valid, Purge, Slot.RouteCode, Clear;
    ClearPlans(s, slot);
    PurgeDropsRoutes(s, slot);
    var q := Purge(s, slot);
    assert forall r | r in q.routes :: r in s.routes && q.routes[r] == s.routes[r] && s.routes[r].code != slot.RouteCode();
  }

  lemma IdleAfterClear(s: Store, slot: Slot)
    requires Valid(s)
    ensures forall p :: p in s.plans && p !in Clear(s, slot).plans ==> !PlanInUse(Clear(s, slot), p)
  {
    hide Valid, Purge, Slot.RouteCode;
    ClearValid(s, slot);
    var c := Clear(s, slot);
    forall p | p in s.plans && p !in c.plans ensures !PlanInUse(c, p) {
      assert RoutesRefer(c) by { ValidRoutesRefer(c); }
    }
  }

  lemma ValidRoutesRefer(s: Store)
    requires Valid(s)
    ensures RoutesRefer(s)
  {
  }

  lemma MakeRoomTables(s: Store, a: SeedArgs)
    requires AtHome(s, a.slot)
    ensures var m := MakeRoom(s, a);
      var w := RemoveRows(s, RoutesWithCode(s, a.slot.RouteCode()), OrdersWithPrefix(s, a.slot.OrderPrefix()));
      && m == w.(routes := m.routes) && m.routes.Keys == w.routes.Keys
      && (forall r | r in w.routes :: m.routes[r] ==
            if a.demote && a.status == Active && ActiveFor(s, r, a.driver, a.depot, a.slot.day)
            then s.routes[r].(status := Assigned) else s.routes[r])
  {
    hide AtHome, Purge, Slot.RouteCode, Slot.OrderPrefix;
    PurgeRemovesSlotOnly(s, a.slot);
    var w := Purge(s, a.slot);
    assert forall r | r in w.routes :: s.routes[r].code != a.slot.RouteCode();
  }

  /** A seed leaves every row outside its slot as it was, but for ACTIVE routes it demotes; it may create one plan;
      every row it adds belongs to the slot. */
  lemma SeedLeavesRest(s: Store, a: SeedArgs)
    requires Valid(s) && AtHome(s, a.slot) && Seed(s, a).Some?
    ensures var v := Seed(s, a).value;
      var w := RemoveRows(s, RoutesWithCode(s, a.slot.RouteCode()), OrdersWithPrefix(s, a.slot.OrderPrefix()));
      var route := Prepare(s, a).0.nextId;
      && Extends(s.plans, v.plans)
      && (forall p :: p in v.plans && p !in s.plans ==> v.plans[p] == Plan(a.depot, a.slot.day))
      && v.routes.Keys == w.routes.Keys + {route} && v.routes[route].code == a.slot.RouteCode()
      && (forall r | r in w.routes :: v.routes[r] ==
            if a.demote && a.status == Active && ActiveFor(s, r, a.driver, a.depot, a.slot.day)
            then s.routes[r].(status := Assigned) else s.routes[r])
      && GrownOrders(w, v, a.slot.OrderPrefix()) && GrownDeliveryStops(w, v)
      && GrownRouteStops(w, v, route) && GrownPackages(w, v)
      && (forall k :: k != a.slot.key ==> (k in v.manifests <==> k in s.manifests))
      && (forall k :: k != a.slot.key && k in s.manifests ==> v.manifests[k] == s.manifests[k])
  {
    hide Valid, AtHome, MakeRoom, InsertGraph, Purge, Slot.RouteCode, Slot.OrderPrefix, SeedArgs.NewGraph, FinalRow,
         RemoveRows, Ready, ActiveFor, RowsOf, AddStops, CounterFits, Seed, GetOrCreatePlan, CodeUnused, GrownOrders,
         GrownDeliveryStops, GrownRouteStops, GrownPackages;
    var (t, plan, created) := Prepare(s, a);
    var m := MakeRoom(s, a);
    MakeRoomTables(s, a);
    MakeRoomKeepsPlans(s, a);
    MakeRoomValid(s, a);
    ValidIds(m);
    PlanOnlyPlans(m, a.depot, a.slot.day);
    PrepareReady(s, a);
    SeedParts(s, a);
    ReadyInsert(t, a, plan);
    PrepareValid(s, a);
    ValidIds(t);
    assert t.nextId !in t.routes;
    var w := RemoveRows(s, RoutesWithCode(s, a.slot.RouteCode()), OrdersWithPrefix(s, a.slot.OrderPrefix()));
    GrownFromEarlier(w, t, InsertGraph(t, a.NewGraph(plan)).value, Seed(s, a).value, t.nextId, a.slot.OrderPrefix());
  }

  lemma GrownFromEarlier(w: Store, t: Store, u: Store, v: Store, route: Id, prefix: string)
    requires t == w.(routes := t.routes, plans := t.plans, nextId := t.nextId) && w.nextId <= t.nextId && Grown(t, u, route, prefix)
    requires v == u.(manifests := v.manifests)
    ensures GrownOrders(w, v, prefix) && GrownDeliveryStops(w, v) && GrownRouteStops(w, v, route) && GrownPackages(w, v)
  {
  }
}
