/** When a seed succeeds, what its route consists of, and what total_stops says about it. */
module AssignCounts {
  import opened Outcomes
  import opened Numerals
  import opened Calendar
  import opened AssignIds
  import opened AssignStore
  import opened AssignRuns
  import opened AssignActive
  import opened AssignFrame

  // ---- When a seed succeeds ----

  /** No two stops print the same order id, label or tracking id. */
  predicate Distinct(xs: seq<StopSpec>) {
    forall i, j :: 0 <= i < j < |xs| ==>
      xs[i].orderId != xs[j].orderId && xs[i].masterLabel != xs[j].masterLabel && xs[i].trackingId != xs[j].trackingId
  }

  lemma UnusedAfter(s: Store, route: Id, x: StopSpec, y: StopSpec)
    requires IdsBelow(s)
    ensures Unused(WithStop(s, route, x), y) <==>
      Unused(s, y) && x.orderId != y.orderId && x.masterLabel != y.masterLabel && x.trackingId != y.trackingId
  {
    var t := WithStop(s, route, x);
    assert t.orders[s.nextId].orderId == x.orderId && t.orders[s.nextId].masterLabel == x.masterLabel;
    assert t.deliveryStops[s.nextId + 1].trackingId == x.trackingId;
    if Unused(t, y) {
      forall o | o in s.orders ensures s.orders[o].orderId != y.orderId && s.orders[o].masterLabel != y.masterLabel {
        assert t.orders[o] == s.orders[o];
      }
      forall d | d in s.deliveryStops ensures s.deliveryStops[d].trackingId != y.trackingId {
        assert t.deliveryStops[d] == s.deliveryStops[d];
      }
    }
  }

  /** After stops have been added, an id is unused if it was before and none of them took it. */
  lemma {:induction false} UnusedAfterAll(s: Store, route: Id, xs: seq<StopSpec>, y: StopSpec)
    requires Valid(s) && route in s.routes && Distinct(xs + [y])
    ensures AddStops(s, route, xs).Some? ==> (Unused(AddStops(s, route, xs).value, y) <==> Unused(s, y))
  {
    hide Valid, Unused, WithStop;
    if xs != [] {
      var init, x := xs[..|xs| - 1], xs[|xs| - 1];
      assert Distinct(init + [y]) by {
        assert forall i :: 0 <= i < |init| ==> (init + [y])[i] == (xs + [y])[i];
        assert (init + [y])[|init|] == (xs + [y])[|xs|];
      }
      UnusedAfterAll(s, route, init, y);
      AddStopsValid(s, route, init);
      AddStopsKeepsRoutes(s, route, init);
      if AddStops(s, route, xs).Some? {
        var t := AddStops(s, route, init).value;
        ValidIds(t);
        UnusedAfter(t, route, x, y);
        assert (xs + [y])[|xs| - 1] == x && (xs + [y])[|xs|] == y;
      }
    }
  }

  lemma {:induction false} AddStopsSucceeds(s: Store, route: Id, xs: seq<StopSpec>)
    requires Valid(s) && route in s.routes && Distinct(xs)
    ensures AddStops(s, route, xs).Some? <==> forall x :: x in xs ==> Fits(x) && Unused(s, x)
  {
    hide Valid, Unused, WithStop, Fits;
    if xs != [] {
      var init, x := xs[..|xs| - 1], xs[|xs| - 1];
      assert xs == init + [x];
      AddStopsSucceeds(s, route, init);
      UnusedAfterAll(s, route, init, x);
      assert x in xs;
      assert forall y :: y in xs <==> y in init || y == x;
    }
  }

  /** The i-th printed stop, counted from 1; the one after the operational stops is the RETURN stop. */
  lemma SpecAt(a: SeedArgs, plan: Id, i: nat)
    requires i < |Specs(a.NewGraph(plan))|
    ensures var xs := Specs(a.NewGraph(plan));
      && |xs| == a.Operational() + (if a.slot.key.IncludeReturn() then 1 else 0)
      && xs[i] == if i < a.Operational() then a.Operation(i + 1) else a.Return(i + 1)
  {
    hide SeedArgs.Operation, SeedArgs.Return, SeedArgs.NewRoute;
    var g := a.NewGraph(plan);
    assert Specs(g)[i] == if i < |g.operations| then g.operations[i] else g.back.value;
  }

  function SuffixAt(a: SeedArgs, i: nat): (s: string)
    ensures IsSuffix(s)
  {
    if i < a.Operational() then "" else RETURN_SUFFIX
  }

  lemma SpecIds(a: SeedArgs, plan: Id, i: nat)
    requires i < |Specs(a.NewGraph(plan))|
    ensures var x := Specs(a.NewGraph(plan))[i];
      && x.orderId == a.slot.OrderId(i + 1, SuffixAt(a, i)) && x.masterLabel == a.slot.MasterLabel(i + 1, SuffixAt(a, i))
      && x.trackingId == a.slot.TrackingId(i + 1, SuffixAt(a, i)) && x.sequence == i + 1
  {
    hide SeedArgs.NewGraph, Specs, Slot.OrderId, Slot.MasterLabel, Slot.TrackingId;
    SpecAt(a, plan, i);
  }

  lemma SpecsDistinct(a: SeedArgs, plan: Id)
    ensures Distinct(Specs(a.NewGraph(plan)))
  {
    hide SeedArgs.NewGraph, Specs, SuffixAt, PrintedId;
    var xs := Specs(a.NewGraph(plan));
    forall i, j | 0 <= i < j < |xs|
      ensures xs[i].orderId != xs[j].orderId && xs[i].masterLabel != xs[j].masterLabel && xs[i].trackingId != xs[j].trackingId
    {
      SpecIds(a, plan, i);
      SpecIds(a, plan, j);
      PrintedIdInjective("ORD-", a.slot, a.slot, i + 1, j + 1, SuffixAt(a, i), SuffixAt(a, j));
      PrintedIdInjective("ML-", a.slot, a.slot, i + 1, j + 1, SuffixAt(a, i), SuffixAt(a, j));
      PrintedIdInjective("TRK-", a.slot, a.slot, i + 1, j + 1, SuffixAt(a, i), SuffixAt(a, j));
    }
  }

  /** The label or tracking id of x is held by a row that the purge of the slot will not remove. */
  ghost predicate TakenElsewhere(s: Store, slot: Slot, x: StopSpec) {
    || (exists o :: o in s.orders && !(slot.OrderPrefix() <= s.orders[o].orderId) && s.orders[o].masterLabel == x.masterLabel)
    || (exists d :: d in s.deliveryStops && s.deliveryStops[d].order in s.orders
          && !(slot.OrderPrefix() <= s.orders[s.deliveryStops[d].order].orderId)
          && s.deliveryStops[d].trackingId == x.trackingId)
  }

  /** t holds the orders and delivery stops of s that the prefix does not own. */
  ghost predicate KeepsOthers(s: Store, t: Store, prefix: string) {
    && (forall o :: o in t.orders <==> o in s.orders && !(prefix <= s.orders[o].orderId))
    && (forall o :: o in t.orders ==> t.orders[o] == s.orders[o])
    && (forall d :: d in t.deliveryStops <==> d in s.deliveryStops && s.deliveryStops[d].order in t.orders)
    && (forall d :: d in t.deliveryStops ==> t.deliveryStops[d] == s.deliveryStops[d])
  }

  lemma UnusedOutside(s: Store, t: Store, slot: Slot, x: StopSpec)
    requires KeepsOthers(s, t, slot.OrderPrefix()) && slot.OrderPrefix() <= x.orderId
    ensures Unused(t, x) <==> !TakenElsewhere(s, slot, x)
  {
    hide Slot.OrderPrefix;
    if Unused(t, x) {
      assert forall o | o in s.orders && !(slot.OrderPrefix() <= s.orders[o].orderId) :: o in t.orders;
      assert forall d | d in s.deliveryStops && s.deliveryStops[d].order in t.orders :: d in t.deliveryStops;
    }
    if !TakenElsewhere(s, slot, x) {
      forall o | o in t.orders ensures t.orders[o].orderId != x.orderId && t.orders[o].masterLabel != x.masterLabel {
        assert o in s.orders && !(slot.OrderPrefix() <= s.orders[o].orderId);
      }
      forall d | d in t.deliveryStops ensures t.deliveryStops[d].trackingId != x.trackingId {
        assert d in s.deliveryStops && s.deliveryStops[d].order in t.orders;
      }
    }
  }

  lemma ValidStops(s: Store)
    requires Valid(s)
    ensures DeliveryStopsRefer(s)
  {
  }

  lemma MakeRoomKeepsOthers(s: Store, a: SeedArgs, t: Store)
    requires Valid(s) && AtHome(s, a.slot) && t.orders == MakeRoom(s, a).orders
    requires t.deliveryStops == MakeRoom(s, a).deliveryStops
    ensures KeepsOthers(s, t, a.slot.OrderPrefix())
  {
    hide Valid, AtHome, MakeRoom, Slot.OrderPrefix, Slot.RouteCode, ActiveFor;
    MakeRoomTables(s, a);
    var own := OrdersWithPrefix(s, a.slot.OrderPrefix());
    assert t.orders == s.orders - own;
    assert t.deliveryStops == s.deliveryStops - StopsOfOrders(s, own);
    assert DeliveryStopsRefer(s) by { ValidStops(s); }
  }

  lemma UnusedAfterMakeRoom(s: Store, a: SeedArgs, t: Store, x: StopSpec)
    requires Valid(s) && AtHome(s, a.slot) && t.orders == MakeRoom(s, a).orders
    requires t.deliveryStops == MakeRoom(s, a).deliveryStops && a.slot.OrderPrefix() <= x.orderId
    ensures Unused(t, x) <==> !TakenElsewhere(s, a.slot, x)
  {
    hide Valid, AtHome, MakeRoom, Slot.OrderPrefix, Unused, TakenElsewhere, KeepsOthers;
    MakeRoomKeepsOthers(s, a, t);
    UnusedOutside(s, t, a.slot, x);
  }

  /** Every counter value the script writes is in range: in return scenarios the counter is raised twice. */
  predicate CountersInRange(a: SeedArgs) {
    -2_147_483_648 <= a.stops + Drift(a.slot) && a.stops + 2 * Drift(a.slot) <= 2_147_483_647
  }

  lemma TenDigits(n: nat)
    requires n <= 0x8000_0000
    ensures |PadGrow(n, 2)| <= 10
  {
    assert Pow10(10) == 10_000_000_000 by {
      assert Pow10(5) == 100_000;
      assert Pow10(10) == 100_000 * Pow10(5);
    }
    DigitsFit(n, 10);
  }

  lemma PrintedLength(head: string, slot: Slot, n: nat, suffix: string)
    requires n <= 0x8000_0000 && IsSuffix(suffix)
    ensures |PrintedId(head, slot, n, suffix)| <= |head| + 26
  {
    hide Yymmdd, PadGrow;
    TenDigits(n);
  }

  /** While the counters are in range every printed id fits its column. */
  lemma CountedIdsFit(a: SeedArgs, plan: Id)
    requires CountersInRange(a)
    ensures forall x :: x in Specs(a.NewGraph(plan)) ==> Fits(x)
  {
    hide SeedArgs.NewGraph, Specs, PrintedId;
    var xs := Specs(a.NewGraph(plan));
    GraphTotals(a, plan);
    forall x | x in xs ensures Fits(x) {
      var i :| 0 <= i < |xs| && xs[i] == x;
      SpecIds(a, plan, i);
      SpecAt(a, plan, i);
      PrintedLength("ORD-", a.slot, i + 1, SuffixAt(a, i));
      PrintedLength("ML-", a.slot, i + 1, SuffixAt(a, i));
      PrintedLength("TRK-", a.slot, i + 1, SuffixAt(a, i));
    }
  }

  /** A seed succeeds exactly when its counters stay in range, which keeps every id within its column, and no other slot's
      row holds one of its labels or tracking ids. */
  lemma SeedSucceedsExactly(s: Store, a: SeedArgs)
    requires Valid(s) && AtHome(s, a.slot)
    ensures Seed(s, a).Some? <==>
      && CountersInRange(a)
      && forall x :: x in Specs(a.NewGraph(Prepare(s, a).1)) ==> !TakenElsewhere(s, a.slot, x)
  {
    hide Valid, AtHome, MakeRoom, GetOrCreatePlan, SeedArgs.NewGraph, Slot.OrderPrefix, Slot.RouteCode, Fits, Specs,
         TakenElsewhere, Unused, Distinct, FinalRow, InsertGraph;
    var (t, plan, created) := Prepare(s, a);
    var g := a.NewGraph(plan);
    var xs := Specs(g);
    PrepareValid(s, a);
    GraphCode(a, plan);
    WithRouteValid(t, g.row);
    SpecsDistinct(a, plan);
    GraphTotals(a, plan);
    if CountersInRange(a) {
      CountedIdsFit(a, plan);
    }
    AddStopsSucceeds(WithRoute(t, g.row), t.nextId, xs);
    InsertGraphIsStops(t, g);
    MakeRoomValid(s, a);
    ValidIds(MakeRoom(s, a));
    PlanOnlyPlans(MakeRoom(s, a), a.depot, a.slot.day);
    forall x | x in xs ensures Unused(WithRoute(t, g.row), x) <==> !TakenElsewhere(s, a.slot, x) {
      SpecOwned(a, plan, x);
      UnusedAfterMakeRoom(s, a, WithRoute(t, g.row), x);
    }
  }

  lemma SpecOwned(a: SeedArgs, plan: Id, x: StopSpec)
    requires x in Specs(a.NewGraph(plan))
    ensures a.slot.OrderPrefix() <= x.orderId
  {
    hide SeedArgs.NewGraph, Slot.OrderPrefix;
    GraphIdsOwn(a, plan, a.slot);
  }

  /** The command line clamps the number of stops to 1..8; such ids always fit. */
  lemma ClampedStopsFit(a: SeedArgs, plan: Id)
    requires 1 <= a.stops <= 8
    ensures CountersInRange(a) && forall x :: x in Specs(a.NewGraph(plan)) ==> Fits(x)
  {
    hide SeedArgs.NewGraph, Specs, Fits;
    CountedIdsFit(a, plan);
  }

  const FRESH := Store(map[], map[], map[], map[], map[], map[], map[], 0)

  /** On empty tables every seed with a clamped stop count succeeds: the hypotheses of the lemmas about a successful
      seed can be met for any scenario, day, driver and status. */
  lemma FirstSeedSucceeds(a: SeedArgs)
    requires 1 <= a.stops <= 8
    ensures Valid(FRESH) && AtHome(FRESH, a.slot) && Seed(FRESH, a).Some?
  {
    hide Seed, SeedArgs.NewGraph, Specs, Prepare, Fits;
    FreshIsAtHome(a.slot);
    SeedSucceedsExactly(FRESH, a);
    ClampedStopsFit(a, Prepare(FRESH, a).1);
  }

  lemma FreshIsAtHome(slot: Slot)
    ensures Valid(FRESH) && AtHome(FRESH, slot)
  {
    hide Slot.RouteCode, Slot.OrderPrefix;
  }

  // ---- total_stops ----

  function StopsOn(s: Store, route: Id): set<Id> {
    set i | i in s.routeStops && s.routeStops[i].route == route
  }

  lemma FreshRouteStop(s: Store)
    requires IdsBelow(s)
    ensures s.nextId + 2 !in s.routeStops
  {
  }

  lemma WithStopAdds(s: Store, route: Id, x: StopSpec)
    requires s.nextId + 2 !in s.routeStops
    ensures |StopsOn(WithStop(s, route, x), route)| == |StopsOn(s, route)| + 1
  {
    assert StopsOn(WithStop(s, route, x), route) == StopsOn(s, route) + {s.nextId + 2};
  }

  lemma WithStopElsewhere(s: Store, route: Id, x: StopSpec, r: Id)
    requires s.nextId + 2 !in s.routeStops && r != route
    ensures StopsOn(WithStop(s, route, x), r) == StopsOn(s, r)
  {
  }

  lemma WithStopCount(s: Store, route: Id, x: StopSpec, r: Id)
    requires IdsBelow(s)
    ensures |StopsOn(WithStop(s, route, x), r)| == |StopsOn(s, r)| + (if r == route then 1 else 0)
  {
    hide IdsBelow, StopsOn, WithStop;
    FreshRouteStop(s);
    if r == route {
      WithStopAdds(s, route, x);
    } else {
      WithStopElsewhere(s, route, x, r);
    }
  }

  lemma {:induction false} AddStopsCount(s: Store, route: Id, xs: seq<StopSpec>, r: Id)
    requires Valid(s) && route in s.routes
    ensures AddStops(s, route, xs).Some? ==>
      |StopsOn(AddStops(s, route, xs).value, r)| == |StopsOn(s, r)| + (if r == route then |xs| else 0)
  {
    hide Valid, Unused, WithStop, StopsOn;
    if xs != [] {
      var init := xs[..|xs| - 1];
      AddStopsCount(s, route, init, r);
      AddStopsValid(s, route, init);
      AddStopsKeepsRoutes(s, route, init);
      if AddStops(s, route, xs).Some? {
        ValidIds(AddStops(s, route, init).value);
        WithStopCount(AddStops(s, route, init).value, route, xs[|xs| - 1], r);
      }
    }
  }

  /** append_return_route_stop adds one stop and counts one: a counter that was exact stays exact, and one that
      already counted the RETURN stop stays one too high. */
  lemma AppendReturnKeepsDrift(s: Store, route: Id, x: StopSpec)
    requires IdsBelow(s) && route in s.routes
    ensures AppendReturn(s, route, x).Some? ==>
      var u := AppendReturn(s, route, x).value;
      route in u.routes
      && u.routes[route].totalStops - |StopsOn(u, route)| == s.routes[route].totalStops - |StopsOn(s, route)|
      && |StopsOn(u, route)| == |StopsOn(s, route)| + 1
  {
    hide Unused;
    if AppendReturn(s, route, x).Some? {
      var t := WithStop(s, route, x);
      WithStopCount(s, route, x, route);
      assert StopsOn(AppendReturn(s, route, x).value, route) == StopsOn(t, route);
    }
  }

  /** How far a slot's counter is above its number of route stops. */
  function Drift(slot: Slot): nat {
    if slot.key.IncludeReturn() then 1 else 0
  }

  ghost predicate Counted(s: Store, slot: Slot) {
    forall r | r in s.routes && s.routes[r].code == slot.RouteCode() ::
      s.routes[r].totalStops == |StopsOn(s, r)| + Drift(slot)
  }

  lemma NoStopsYet(s: Store, row: Route)
    requires IdsBelow(s) && RouteStopsRefer(s)
    ensures StopsOn(WithRoute(s, row), s.nextId) == {}
    ensures forall r :: StopsOn(WithRoute(s, row), r) == StopsOn(s, r)
  {
  }

  lemma ValidRefers(s: Store)
    requires Valid(s)
    ensures RouteStopsRefer(s)
  {
  }

  /** The route a seed inserts has one stop for each operational stop asked for and one RETURN stop, but return
      scenarios count that stop twice. A negative stop count inserts none and still lowers the counter. */
  lemma SeedCounter(s: Store, a: SeedArgs)
    requires Valid(s) && Seed(s, a).Some?
    ensures var v, route := Seed(s, a).value, Prepare(s, a).0.nextId;
      && route in v.routes && v.routes[route].code == a.slot.RouteCode()
      && |StopsOn(v, route)| == a.Operational() + Drift(a.slot)
      && v.routes[route].totalStops == a.stops + 2 * Drift(a.slot)
      && (forall r :: r in Prepare(s, a).0.routes ==>
            r != route && |StopsOn(v, r)| == |StopsOn(Prepare(s, a).0, r)|)
  {
    hide Valid, MakeRoom, GetOrCreatePlan, SeedArgs.NewGraph, Slot.RouteCode, Specs, Unused, InsertGraph, FinalRow, StopsOn, WithRoute;
    var (t, plan, created) := Prepare(s, a);
    var g := a.NewGraph(plan);
    var v := Seed(s, a).value;
    PrepareValid(s, a);
    ValidIds(t);
    ValidRefers(t);
    GraphCode(a, plan);
    WithRouteValid(t, g.row);
    WithRouteRow(t, g.row);
    NoStopsYet(t, g.row);
    SeedParts(s, a);
    SeedRoutes(s, a);
    InsertGraphIsStops(t, g);
    GraphTotals(a, plan);
    var r0 := WithRoute(t, g.row);
    var u := AddStops(r0, t.nextId, Specs(g)).value;
    forall r ensures |StopsOn(v, r)| == |StopsOn(t, r)| + (if r == t.nextId then |Specs(g)| else 0) {
      AddStopsCount(r0, t.nextId, Specs(g), r);
      SameRouteStops(u, v, r);
    }
    assert StopsOn(t, t.nextId) == {};
  }

  lemma SameRouteStops(u: Store, v: Store, r: Id)
    requires u.routeStops == v.routeStops
    ensures StopsOn(u, r) == StopsOn(v, r)
  {
  }

  lemma GraphTotals(a: SeedArgs, plan: Id)
    ensures var g := a.NewGraph(plan);
      && |Specs(g)| == a.Operational() + Drift(a.slot)
      && g.row.totalStops == a.stops + Drift(a.slot) && FinalRow(g).totalStops == a.stops + 2 * Drift(a.slot)
  {
  }

  lemma PurgeKeepsStops(s: Store, slot: Slot, r: Id)
    requires r in Purge(s, slot).routes
    ensures StopsOn(Purge(s, slot), r) == StopsOn(s, r)
  {
    hide Like, Slot.RouteCode, Slot.OrderPattern;
    PurgeDropsRoutes(s, slot);
  }

  /** The routes of t that carry the code were in s with the same counter and as many stops. */
  ghost predicate CountsFrom(s: Store, t: Store, code: string) {
    forall r | r in t.routes && t.routes[r].code == code ::
      && r in s.routes && s.routes[r].code == code && s.routes[r].totalStops == t.routes[r].totalStops
      && |StopsOn(s, r)| == |StopsOn(t, r)|
  }

  lemma MakeRoomCounts(s: Store, a: SeedArgs, code: string)
    ensures CountsFrom(s, MakeRoom(s, a), code)
  {
    hide Purge, Slot.RouteCode, ActiveFor, StopsOn;
    var m, p := MakeRoom(s, a), Purge(s, a.slot);
    PurgeDropsRoutes(s, a.slot);
    forall r | r in m.routes && m.routes[r].code == code ensures |StopsOn(s, r)| == |StopsOn(m, r)| {
      PurgeKeepsStops(s, a.slot, r);
      SameRouteStops(m, p, r);
    }
  }

  lemma SeedCounted(s: Store, a: SeedArgs, b: Slot)
    requires Valid(s) && Counted(s, b) && a.stops >= 0
    ensures Seed(s, a).Some? ==> Counted(Seed(s, a).value, b)
  {
    hide Valid, MakeRoom, SeedArgs.NewGraph, Slot.RouteCode, StopsOn, FinalRow, SameSlot, Seed;
    if Seed(s, a).Some? {
      var (t, plan, created) := Prepare(s, a);
      var v, m := Seed(s, a).value, MakeRoom(s, a);
      SeedCounter(s, a);
      SeedRoutes(s, a);
      MakeRoomCounts(s, a, b.RouteCode());
      MakeRoomValid(s, a);
      ValidIds(m);
      PlanOnlyPlans(m, a.depot, a.slot.day);
      forall r | r in v.routes && v.routes[r].code == b.RouteCode() ensures v.routes[r].totalStops == |StopsOn(v, r)| + Drift(b) {
        if r == t.nextId {
          RouteCodeDecodes(a.slot, b);
          SameSlotSameKey(a.slot, b);
        } else {
          SameRouteStops(m, t, r);
        }
      }
    }
  }

  lemma SameSlotSameKey(a: Slot, b: Slot)
    requires SameSlot(a, b)
    ensures Drift(a) == Drift(b)
  {
  }

  lemma ClearCounted(s: Store, slot: Slot, b: Slot)
    requires Valid(s) && Counted(s, b)
    ensures Counted(Clear(s, slot), b)
  {
    hide Valid, Purge, Slot.RouteCode, StopsOn, PlanToDrop, DeletePlan;
    var p, c := Purge(s, slot), Clear(s, slot);
    PurgeDropsRoutes(s, slot);
    PurgeValid(s, slot);
    DroppedPlanIsIdle(p, slot.key);
    forall r | r in c.routes && c.routes[r].code == b.RouteCode() ensures c.routes[r].totalStops == |StopsOn(c, r)| + Drift(b) {
      PurgeKeepsStops(s, slot, r);
      SameRouteStops(p, c, r);
    }
  }

  /** In every run, total_stops is the number of route stops for plain scenarios and one more for return scenarios. */
  lemma {:induction false} RunCounted(s: Store, steps: seq<Step>, b: Slot)
    requires Valid(s) && Counted(s, b)
    requires forall step :: step in steps && step.SeedStep? ==> step.args.stops >= 0
    ensures Counted(Run(s, steps), b)
    decreases |steps|
  {
    hide Valid, Counted, Seed, Clear;
    if steps != [] {
      assert steps[0] in steps;
      ApplyValid(s, steps[0]);
      match steps[0] {
        case SeedStep(a) => SeedCounted(s, a, b);
        case ClearStep(slot) => ClearCounted(s, slot, b);
      }
      RunCounted(Apply(s, steps[0]), steps[1..], b);
    }
  }

  // ---- The stops of the new route ----

  lemma WithStopIds(s: Store, route: Id, x: StopSpec)
    requires IdsBelow(s)
    ensures StopsOn(WithStop(s, route, x), route) == StopsOn(s, route) + {s.nextId + 2}
  {
  }

  lemma {:induction false} AddStopsIds(s: Store, route: Id, xs: seq<StopSpec>)
    requires Valid(s) && route in s.routes && StopsOn(s, route) == {}
    ensures AddStops(s, route, xs).Some? ==>
      forall j :: j in StopsOn(AddStops(s, route, xs).value, route) <==> exists i :: 0 <= i < |xs| && j == s.nextId + 5 * i + 2
  {
    hide Valid, Unused, WithStop, StopsOn;
    if xs != [] {
      var init := xs[..|xs| - 1];
      AddStopsIds(s, route, init);
      AddStopsValid(s, route, init);
      AddStopsKeepsRoutes(s, route, init);
      if AddStops(s, route, xs).Some? {
        var t := AddStops(s, route, init).value;
        ValidIds(t);
        WithStopIds(t, route, xs[|xs| - 1]);
        forall j ensures j in StopsOn(AddStops(s, route, xs).value, route)
            <==> exists i :: 0 <= i < |xs| && j == s.nextId + 5 * i + 2 {
          if j == s.nextId + 5 * |init| + 2 {
            assert 0 <= |init| < |xs|;
          }
        }
      }
    }
  }

  /** The new route carries exactly the stops 1..n of the scenario, in sequence order, each with its order, delivery
      stop and two packages, and a RETURN stop after them in return scenarios. */
  lemma SeedWritesRoute(s: Store, a: SeedArgs)
    requires Valid(s) && AtHome(s, a.slot) && Seed(s, a).Some?
    ensures var (t, plan, created) := Prepare(s, a);
      var v, n := Seed(s, a).value, a.Operational();
      && (forall j :: j in StopsOn(v, t.nextId) <==>
            exists i :: 0 <= i < n + Drift(a.slot) && j == t.nextId + 1 + 5 * i + 2)
      && (forall i :: 0 <= i < n ==> RowsOf(v, t.nextId + 1 + 5 * i, t.nextId, a.Operation(i + 1)))
      && (a.slot.key.IncludeReturn() ==> RowsOf(v, t.nextId + 1 + 5 * n, t.nextId, a.Return(n + 1)))
  {
    hide Valid, AtHome, Prepare, SeedArgs.NewGraph, SeedArgs.Operation, SeedArgs.Return, Slot.RouteCode, Specs, Unused,
         InsertGraph, FinalRow, StopsOn, WithRoute, RowsOf, Grown, Ready;
    var (t, plan, created) := Prepare(s, a);
    var g := a.NewGraph(plan);
    PrepareValid(s, a);
    PrepareReady(s, a);
    SeedParts(s, a);
    ReadyInsert(t, a, plan);
    GraphTotals(a, plan);
    GraphCode(a, plan);
    NewRouteStops(t, g, plan);
    var u, v := InsertGraph(t, g).value, Seed(s, a).value;
    SameRouteStops(u, v, t.nextId);
    forall i | 0 <= i < |Specs(g)| ensures RowsOf(v, t.nextId + 1 + 5 * i, t.nextId, Specs(g)[i]) {
      RowsOfTables(u, v, t.nextId + 1 + 5 * i, t.nextId, Specs(g)[i]);
      SpecAt(a, plan, i);
    }
    forall i | 0 <= i < |Specs(g)|
      ensures Specs(g)[i] == if i < a.Operational() then a.Operation(i + 1) else a.Return(i + 1)
    {
      SpecAt(a, plan, i);
    }
    var n := a.Operational();
    assert a.slot.key.IncludeReturn() <==> Drift(a.slot) == 1;
    forall i | 0 <= i < n ensures RowsOf(v, t.nextId + 1 + 5 * i, t.nextId, a.Operation(i + 1)) {
      assert Specs(g)[i] == a.Operation(i + 1);
    }
    assert a.slot.key.IncludeReturn() ==> Specs(g)[n] == a.Return(n + 1);
    assert forall j :: j in StopsOn(v, t.nextId) <==> j in StopsOn(u, t.nextId);
  }

  lemma NewRouteStops(t: Store, g: Graph, plan: Id)
    requires Valid(t) && plan in t.plans && g.row.plan == Some(plan) && CodeUnused(t, g.row.code)
    ensures InsertGraph(t, g).Some? ==>
      forall j :: j in StopsOn(InsertGraph(t, g).value, t.nextId)
        <==> exists i :: 0 <= i < |Specs(g)| && j == t.nextId + 1 + 5 * i + 2
  {
    hide Valid, Specs, Unused, FinalRow, StopsOn, CodeUnused, InsertGraph;
    var r := WithRoute(t, g.row);
    ValidIds(t);
    ValidRefers(t);
    WithRouteValid(t, g.row);
    WithRouteRow(t, g.row);
    NoStopsYet(t, g.row);
    AddStopsIds(r, t.nextId, Specs(g));
    InsertGraphIsStops(t, g);
    if InsertGraph(t, g).Some? {
      SameRouteStops(AddStops(r, t.nextId, Specs(g)).value, InsertGraph(t, g).value, t.nextId);
    }
  }
}
