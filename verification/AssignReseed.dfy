/** Seeding twice is seeding once, up to generated ids and the manifest's claim on the plan. */
module AssignReseed {
  import opened Outcomes
  import opened Calendar
  import opened AssignIds
  import opened AssignStore
  import opened AssignRuns
  import opened AssignActive
  import opened AssignFrame

  // ---- Renaming generated ids ----

  /** Ids from lo on are moved up by d. */
  function Ren(i: Id, lo: Id, d: nat): Id {
    if i < lo then i else i + d
  }

  function RenOption(ref: Option<Id>, lo: Id, d: nat): Option<Id> {
    match ref
    case None => None
    case Some(i) => Some(Ren(i, lo, d))
  }

  function RenRouteStop(x: RouteStop, lo: Id, d: nat): RouteStop {
    x.(route := Ren(x.route, lo, d), deliveryStop := RenOption(x.deliveryStop, lo, d), order := RenOption(x.order, lo, d))
  }

  function RenDeliveryStop(x: DeliveryStop, lo: Id, d: nat): DeliveryStop {
    x.(order := Ren(x.order, lo, d))
  }

  function RenPackage(x: Package, lo: Id, d: nat): Package {
    x.(order := Ren(x.order, lo, d), deliveryStop := RenOption(x.deliveryStop, lo, d))
  }

  function RenRouteStops(m: map<Id, RouteStop>, lo: Id, d: nat): map<Id, RouteStop> {
    map i | i in m :: RenRouteStop(m[i], lo, d)
  }

  function RenDeliveryStops(m: map<Id, DeliveryStop>, lo: Id, d: nat): map<Id, DeliveryStop> {
    map i | i in m :: RenDeliveryStop(m[i], lo, d)
  }

  function RenPackages(m: map<Id, Package>, lo: Id, d: nat): map<Id, Package> {
    map i | i in m :: RenPackage(m[i], lo, d)
  }

  /** n holds the rows of m under renamed keys. */
  ghost predicate Moved<T>(m: map<Id, T>, n: map<Id, T>, lo: Id, d: nat) {
    && (forall i :: i in m ==> Ren(i, lo, d) in n && n[Ren(i, lo, d)] == m[i])
    && (forall j :: j in n ==> exists i :: i in m && Ren(i, lo, d) == j)
  }

  lemma MovedAdd<T>(m: map<Id, T>, n: map<Id, T>, lo: Id, d: nat, i: Id, x: T)
    requires Moved(m, n, lo, d) && i >= lo
    ensures Moved(m[i := x], n[i + d := x], lo, d)
  {
    var p, q := m[i := x], n[i + d := x];
    assert Ren(i, lo, d) == i + d;
    forall j | j in q ensures exists k :: k in p && Ren(k, lo, d) == j {
      if j == i + d {
        assert i in p;
      } else {
        var k :| k in m && Ren(k, lo, d) == j;
        assert k in p;
      }
    }
  }

  lemma MovedBelow<T>(m: map<Id, T>, lo: Id, d: nat)
    requires forall i :: i in m ==> i < lo
    ensures Moved(m, m, lo, d)
  {
  }

  /** u is s with its generated ids from lo on renamed; manifests aside. */
  ghost predicate Renamed(s: Store, u: Store, lo: Id, d: nat) {
    && u.plans == s.plans && u.nextId == s.nextId + d && s.nextId >= lo
    && Moved(s.routes, u.routes, lo, d)
    && Moved(RenRouteStops(s.routeStops, lo, d), u.routeStops, lo, d)
    && Moved(s.orders, u.orders, lo, d)
    && Moved(RenDeliveryStops(s.deliveryStops, lo, d), u.deliveryStops, lo, d)
    && Moved(RenPackages(s.packages, lo, d), u.packages, lo, d)
  }

  lemma RenamedUnused(s: Store, u: Store, lo: Id, d: nat, x: StopSpec)
    requires Moved(s.orders, u.orders, lo, d)
    requires Moved(RenDeliveryStops(s.deliveryStops, lo, d), u.deliveryStops, lo, d)
    ensures Unused(s, x) <==> Unused(u, x)
  {
    var stops := RenDeliveryStops(s.deliveryStops, lo, d);
    if Unused(s, x) {
      forall o | o in u.orders ensures u.orders[o].orderId != x.orderId && u.orders[o].masterLabel != x.masterLabel {
        var i :| i in s.orders && Ren(i, lo, d) == o;
      }
      forall o | o in u.deliveryStops ensures u.deliveryStops[o].trackingId != x.trackingId {
        var i :| i in stops && Ren(i, lo, d) == o;
        assert stops[i].trackingId == s.deliveryStops[i].trackingId;
      }
    }
    if Unused(u, x) {
      forall o | o in s.orders ensures s.orders[o].orderId != x.orderId && s.orders[o].masterLabel != x.masterLabel {
        assert u.orders[Ren(o, lo, d)] == s.orders[o];
      }
      forall o | o in s.deliveryStops ensures s.deliveryStops[o].trackingId != x.trackingId {
        assert o in stops && u.deliveryStops[Ren(o, lo, d)] == stops[o];
      }
    }
  }

  lemma RenamedWithStop(s: Store, u: Store, lo: Id, d: nat, route: Id, x: StopSpec)
    requires Renamed(s, u, lo, d) && route >= lo
    ensures Renamed(WithStop(s, route, x), WithStop(u, route + d, x), lo, d)
  {
    hide Moved, RenRouteStops, RenDeliveryStops, RenPackages;
    var n, m := s.nextId, u.nextId;
    var order := Order(x.orderId, x.masterLabel, x.organization, Some(x.customer), x.pickup, x.orderStatus);
    MovedAdd(s.orders, u.orders, lo, d, n, order);
    var stop := DeliveryStop(n, x.trackingId, x.stopStatus, x.day);
    MovedAdd(RenDeliveryStops(s.deliveryStops, lo, d), u.deliveryStops, lo, d, n + 1, RenDeliveryStop(stop, lo, d));
    RenDeliveryStopsAdd(s.deliveryStops, lo, d, n + 1, stop);
    var leg := RouteStop(route, Some(n + 1), None, x.sequence, READY, x.flow);
    MovedAdd(RenRouteStops(s.routeStops, lo, d), u.routeStops, lo, d, n + 2, RenRouteStop(leg, lo, d));
    RenRouteStopsAdd(s.routeStops, lo, d, n + 2, leg);
    var package := Package(n, Some(n + 1), x.packageStatus);
    var p, q := RenPackages(s.packages, lo, d), RenPackage(package, lo, d);
    MovedAdd(p, u.packages, lo, d, n + 3, q);
    MovedAdd(p[n + 3 := q], u.packages[m + 3 := q], lo, d, n + 4, q);
    RenPackagesAdd(s.packages, lo, d, n + 3, package);
    RenPackagesAdd(s.packages[n + 3 := package], lo, d, n + 4, package);
  }

  lemma RenDeliveryStopsAdd(m: map<Id, DeliveryStop>, lo: Id, d: nat, i: Id, x: DeliveryStop)
    ensures RenDeliveryStops(m[i := x], lo, d) == RenDeliveryStops(m, lo, d)[i := RenDeliveryStop(x, lo, d)]
  {
  }

  lemma RenRouteStopsAdd(m: map<Id, RouteStop>, lo: Id, d: nat, i: Id, x: RouteStop)
    ensures RenRouteStops(m[i := x], lo, d) == RenRouteStops(m, lo, d)[i := RenRouteStop(x, lo, d)]
  {
  }

  lemma RenPackagesAdd(m: map<Id, Package>, lo: Id, d: nat, i: Id, x: Package)
    ensures RenPackages(m[i := x], lo, d) == RenPackages(m, lo, d)[i := RenPackage(x, lo, d)]
  {
  }

  lemma {:induction false} RenamedAddStops(s: Store, u: Store, lo: Id, d: nat, route: Id, xs: seq<StopSpec>)
    requires Renamed(s, u, lo, d) && route >= lo
    ensures AddStops(s, route, xs).Some? <==> AddStops(u, route + d, xs).Some?
    ensures AddStops(s, route, xs).Some? ==>
      Renamed(AddStops(s, route, xs).value, AddStops(u, route + d, xs).value, lo, d)
  {
    hide Unused, WithStop, Moved, Fits;
    if xs != [] {
      var init := xs[..|xs| - 1];
      RenamedAddStops(s, u, lo, d, route, init);
      if AddStops(s, route, init).Some? {
        var t, v := AddStops(s, route, init).value, AddStops(u, route + d, init).value;
        RenamedUnused(t, v, lo, d, xs[|xs| - 1]);
        RenamedWithStop(t, v, lo, d, route, xs[|xs| - 1]);
      }
    }
  }

  lemma RenamedRow(s: Store, u: Store, lo: Id, d: nat, route: Id, row: Route)
    requires Renamed(s, u, lo, d) && route >= lo
    ensures Renamed(s.(routes := s.routes[route := row]), u.(routes := u.routes[route + d := row]), lo, d)
  {
    hide Moved, RenRouteStops, RenDeliveryStops, RenPackages;
    MovedAdd(s.routes, u.routes, lo, d, route, row);
  }

  lemma RenamedWithRoute(s: Store, u: Store, lo: Id, d: nat, row: Route)
    requires Renamed(s, u, lo, d)
    ensures Renamed(WithRoute(s, row), WithRoute(u, row), lo, d)
  {
    hide Moved, RenRouteStops, RenDeliveryStops, RenPackages;
    MovedAdd(s.routes, u.routes, lo, d, s.nextId, row);
  }

  /** The same graph inserted into renamed stores gives renamed stores, or fails in both. */
  lemma RenamedInsertGraph(s: Store, u: Store, lo: Id, d: nat, g: Graph)
    requires Renamed(s, u, lo, d)
    ensures InsertGraph(s, g).Some? <==> InsertGraph(u, g).Some?
    ensures InsertGraph(s, g).Some? ==> Renamed(InsertGraph(s, g).value, InsertGraph(u, g).value, lo, d)
  {
    hide Moved, WithRoute, FinalRow, Specs, InsertGraph;
    RenamedWithRoute(s, u, lo, d, g.row);
    RenamedAddStops(WithRoute(s, g.row), WithRoute(u, g.row), lo, d, s.nextId, Specs(g));
    InsertGraphIsStops(s, g);
    InsertGraphIsStops(u, g);
    var t := AddStops(WithRoute(s, g.row), s.nextId, Specs(g));
    if t.Some? {
      RenamedRow(t.value, AddStops(WithRoute(u, g.row), u.nextId, Specs(g)).value, lo, d, s.nextId, FinalRow(g));
    }
  }

  // ---- The second seed ----

  lemma DemoteNothing(s: Store, driver: Id, depot: Id, day: Date, keepCode: string)
    requires NoneActive(s, driver, depot, day)
    ensures Demote(s, driver, depot, day, keepCode) == s
  {
  }

  lemma PlanFound(s: Store, plan: Id, depot: Id, day: Date)
    requires PlansUnique(s) && plan in s.plans && s.plans[plan] == Plan(depot, day)
    ensures GetOrCreatePlan(s, depot, day) == (s, plan, false)
  {
  }

  /** Before its insert, the second seed is where the first one was, with the plan already there. */
  lemma ReseedPrepares(s: Store, a: SeedArgs)
    requires Valid(s) && AtHome(s, a.slot) && Seed(s, a).Some?
    ensures var (t, plan, created) := Prepare(s, a);
      var v := Seed(s, a).value;
      && MakeRoom(v, a) == t.(nextId := v.nextId, manifests := v.manifests)
      && Prepare(v, a) == (MakeRoom(v, a), plan, false)
  {
    hide Valid, AtHome, Prepare, Seed, Purge, Demote, ActiveFor, Slot.RouteCode, GetOrCreatePlan;
    var (t, plan, created) := Prepare(s, a);
    var v := Seed(s, a).value;
    PurgeAfterSeed(s, a);
    PrepareValid(s, a);
    var w := t.(nextId := v.nextId, manifests := v.manifests);
    if a.demote && a.status == Active {
      DemotionClearsWay(s, a);
      assert NoneActive(w, a.driver, a.depot, a.slot.day) by { SameActives(t, w, a.driver, a.depot, a.slot.day); }
      DemoteNothing(w, a.driver, a.depot, a.slot.day, a.slot.RouteCode());
    }
    assert PlansUnique(w) by { ValidPlansUnique(t); }
    PlanFound(w, plan, a.depot, a.slot.day);
    PrepareIs(v, a);
  }

  lemma SameActives(t: Store, w: Store, driver: Id, depot: Id, day: Date)
    requires w.routes == t.routes && w.plans == t.plans && NoneActive(t, driver, depot, day)
    ensures NoneActive(w, driver, depot, day)
  {
  }

  lemma ValidPlansUnique(s: Store)
    requires Valid(s)
    ensures PlansUnique(s)
  {
  }

  lemma PrepareIs(s: Store, a: SeedArgs)
    ensures Prepare(s, a) == GetOrCreatePlan(MakeRoom(s, a), a.depot, a.slot.day)
  {
  }

  lemma RenamedSelf(t: Store, w: Store)
    requires IdsBelow(t) && w.nextId >= t.nextId
    requires w == t.(nextId := w.nextId, manifests := w.manifests) && ReferencesHold(t)
    ensures Renamed(t, w, t.nextId, w.nextId - t.nextId)
  {
    var lo, d := t.nextId, w.nextId - t.nextId;
    hide Moved, ReferencesHold, RenRouteStops, RenDeliveryStops, RenPackages;
    RenBelow(t, lo, d);
    MovedBelow(t.routes, lo, d);
    MovedBelow(t.orders, lo, d);
    MovedBelow(t.routeStops, lo, d);
    MovedBelow(t.deliveryStops, lo, d);
    MovedBelow(t.packages, lo, d);
  }

  lemma RenBelow(t: Store, lo: Id, d: nat)
    requires IdsBelow(t) && ReferencesHold(t) && lo == t.nextId
    ensures RenRouteStops(t.routeStops, lo, d) == t.routeStops
    ensures RenDeliveryStops(t.deliveryStops, lo, d) == t.deliveryStops
    ensures RenPackages(t.packages, lo, d) == t.packages
  {
  }

  lemma RenamedIgnoresManifests(s: Store, u: Store, lo: Id, d: nat, m: map<ScenarioKey, Manifest>, n: map<ScenarioKey, Manifest>)
    requires Renamed(s, u, lo, d)
    ensures Renamed(s.(manifests := m), u.(manifests := n), lo, d)
  {
  }

  /** seed; seed succeeds whenever seed does, and differs from one seed only in the ids generated for the slot's rows
      and in the manifest, which no longer claims the plan. */
  lemma ReseedIsSeed(s: Store, a: SeedArgs)
    requires Valid(s) && AtHome(s, a.slot) && Seed(s, a).Some?
    ensures Seed(s, a).value.nextId >= Prepare(s, a).0.nextId && a.slot.key in Seed(s, a).value.manifests
    ensures var v, route := Seed(s, a).value, Prepare(s, a).0.nextId;
      && Seed(v, a).Some?
      && Renamed(v, Seed(v, a).value, route, v.nextId - route)
      && Seed(v, a).value.manifests ==
           v.manifests[a.slot.key := v.manifests[a.slot.key].(planCreatedByScript := false, route := v.nextId)]
  {
    hide Valid, AtHome, Prepare, Purge, MakeRoom, Slot.RouteCode, InsertGraph, SeedArgs.NewGraph, Moved;
    var (t, plan, created) := Prepare(s, a);
    var v := Seed(s, a).value;
    var g := a.NewGraph(plan);
    SeedParts(s, a);
    ReseedPrepares(s, a);
    PrepareValid(s, a);
    var w := MakeRoom(v, a);
    SeedGrowsIds(s, a);
    assert Renamed(t, w, t.nextId, v.nextId - t.nextId) by {
      ValidIds(t);
      ValidReferences(t);
      RenamedSelf(t, w);
    }
    RenamedInsertGraph(t, w, t.nextId, v.nextId - t.nextId, g);
    InsertGraphRoutes(w, g);
    SeedParts(v, a);
    RenamedIgnoresManifests(InsertGraph(t, g).value, InsertGraph(w, g).value, t.nextId, v.nextId - t.nextId,
                            v.manifests, Seed(v, a).value.manifests);
  }

  lemma ValidReferences(s: Store)
    requires Valid(s)
    ensures ReferencesHold(s)
  {
  }

  lemma SeedGrowsIds(s: Store, a: SeedArgs)
    requires Seed(s, a).Some?
    ensures Seed(s, a).value.nextId >= Prepare(s, a).0.nextId
  {
    hide Prepare, SeedArgs.NewGraph;
    var (t, plan, created) := Prepare(s, a);
    AddStopsKeepsRoutes(WithRoute(t, a.NewGraph(plan).row), t.nextId, a.NewGraph(plan).operations);
  }

  /** A plan that a seed created is deleted by the next clear, but not if the slot is seeded again in between:
      the second manifest does not claim it, and the plan stays. */
  lemma ReseedOrphansPlan(s: Store, a: SeedArgs)
    requires Valid(s) && AtHome(s, a.slot) && Seed(s, a).Some?
    ensures var (t, plan, created) := Prepare(s, a);
      var v := Seed(s, a).value;
      && (created ==> plan !in s.plans)
      && (created ==> plan !in Clear(v, a.slot).plans)
      && Seed(v, a).Some? && plan in Clear(Seed(v, a).value, a.slot).plans
  {
    hide Valid, AtHome, Prepare, Purge, MakeRoom, Slot.RouteCode, InsertGraph, SeedArgs.NewGraph, Renamed, Clear, Seed;
    var (t, plan, created) := Prepare(s, a);
    var m, v := MakeRoom(s, a), Seed(s, a).value;
    ReseedIsSeed(s, a);
    ReseedPrepares(s, a);
    PrepareValid(s, a);
    SeedValid(s, a);
    SeedAtHome(s, a, a.slot);
    ClearUndoesSeed(s, a);
    ClearUndoesSeed(v, a);
    MakeRoomValid(s, a);
    MakeRoomKeepsPlans(s, a);
    ValidIds(m);
    PlanOnlyPlans(m, a.depot, a.slot.day);
    PrepareIs(s, a);
  }
}
