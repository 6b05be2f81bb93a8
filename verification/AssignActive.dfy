/** A driver has at most one ACTIVE route per depot and day, in every run of demoting seeds and clears. */
module AssignActive {
  import opened Outcomes
  import opened Calendar
  import opened AssignIds
  import opened AssignStore
  import opened AssignRuns

  ghost predicate OneActive(s: Store, driver: Id, depot: Id, day: Date) {
    forall r, q | r in s.routes && q in s.routes ::
      ActiveFor(s, r, driver, depot, day) && ActiveFor(s, q, driver, depot, day) ==> r == q
  }

  ghost predicate NoneActive(s: Store, driver: Id, depot: Id, day: Date) {
    forall r | r in s.routes :: !ActiveFor(s, r, driver, depot, day)
  }

  /** t has no route active for a driver, depot and day that s did not have active. */
  ghost predicate FewerActive(s: Store, t: Store, driver: Id, depot: Id, day: Date) {
    forall r | r in t.routes :: ActiveFor(t, r, driver, depot, day) ==> r in s.routes && ActiveFor(s, r, driver, depot, day)
  }

  lemma FewerKeepsOne(s: Store, t: Store, driver: Id, depot: Id, day: Date)
    requires FewerActive(s, t, driver, depot, day) && OneActive(s, driver, depot, day)
    ensures OneActive(t, driver, depot, day)
  {
  }

  lemma PurgeFewer(s: Store, slot: Slot, driver: Id, depot: Id, day: Date)
    ensures FewerActive(s, Purge(s, slot), driver, depot, day)
  {
    PurgeDropsRoutes(s, slot);
  }

  lemma DemoteFewer(s: Store, d: Id, p: Id, on: Date, keepCode: string, driver: Id, depot: Id, day: Date)
    ensures FewerActive(s, Demote(s, d, p, on, keepCode), driver, depot, day)
  {
  }

  lemma MakeRoomFewer(s: Store, a: SeedArgs, driver: Id, depot: Id, day: Date)
    ensures FewerActive(s, MakeRoom(s, a), driver, depot, day)
  {
    var p := Purge(s, a.slot);
    PurgeFewer(s, a.slot, driver, depot, day);
    DemoteFewer(p, a.driver, a.depot, a.slot.day, a.slot.RouteCode(), driver, depot, day);
  }

  /** A new plan has no routes yet. */
  lemma PlanFewer(s: Store, dep: Id, on: Date, driver: Id, depot: Id, day: Date)
    requires Valid(s)
    ensures FewerActive(s, GetOrCreatePlan(s, dep, on).0, driver, depot, day)
    ensures FewerActive(GetOrCreatePlan(s, dep, on).0, s, driver, depot, day)
  {
    hide PlansUnique, RouteCodesUnique, OrdersUnique, TrackingUnique, RouteStopsRefer, DeliveryStopsRefer, PackagesRefer;
    var t := GetOrCreatePlan(s, dep, on).0;
    forall r | r in s.routes ensures ActiveFor(t, r, driver, depot, day) <==> ActiveFor(s, r, driver, depot, day) {
      assert Refers(s.routes[r].plan, s.plans);
    }
  }

  lemma PrepareFewer(s: Store, a: SeedArgs, driver: Id, depot: Id, day: Date)
    requires Valid(s)
    ensures FewerActive(s, Prepare(s, a).0, driver, depot, day)
  {
    MakeRoomValid(s, a);
    MakeRoomFewer(s, a, driver, depot, day);
    PlanFewer(MakeRoom(s, a), a.depot, a.slot.day, driver, depot, day);
  }

  /** The route row a graph ends with: a RETURN stop has raised its counter once more. */
  function FinalRow(g: Graph): Route {
    g.row.(totalStops := g.row.totalStops + (if g.back.Some? then 1 else 0))
  }

  lemma InsertGraphRoutes(s: Store, g: Graph)
    ensures InsertGraph(s, g).Some? ==>
      var u := InsertGraph(s, g).value;
      u.routes == s.routes[s.nextId := FinalRow(g)] && u.plans == s.plans && u.manifests == s.manifests
  {
    AddStopsKeepsRoutes(WithRoute(s, g.row), s.nextId, g.operations);
  }

  lemma SeedRoutes(s: Store, a: SeedArgs)
    ensures Seed(s, a).Some? ==>
      var (t, plan, created) := Prepare(s, a);
      var u := Seed(s, a).value;
      u.plans == t.plans && u.routes == t.routes[t.nextId := FinalRow(a.NewGraph(plan))]
  {
    var (t, plan, created) := Prepare(s, a);
    InsertGraphRoutes(t, a.NewGraph(plan));
  }

  lemma NewRowActive(s: Store, row: Route, u: Store, driver: Id, depot: Id, day: Date)
    requires IdsBelow(s) && u.plans == s.plans && u.routes == s.routes[s.nextId := row]
    ensures forall r | r in u.routes :: ActiveFor(u, r, driver, depot, day) <==>
        if r == s.nextId
        then row.status == Active && row.driver == Some(driver)
             && row.plan.Some? && row.plan.value in s.plans && s.plans[row.plan.value] == Plan(depot, day)
        else r in s.routes && ActiveFor(s, r, driver, depot, day)
  {
  }

  /** After a seed, a route is active for (driver, depot, day) if it was just before the insert, or is the new one. */
  lemma SeedActives(s: Store, a: SeedArgs, driver: Id, depot: Id, day: Date)
    requires Valid(s) && Seed(s, a).Some?
    ensures var t, u := Prepare(s, a).0, Seed(s, a).value;
      && t.nextId !in t.routes && u.routes.Keys == t.routes.Keys + {t.nextId}
      && (forall r | r in u.routes :: ActiveFor(u, r, driver, depot, day) <==>
            if r == t.nextId then a.status == Active && driver == a.driver && depot == a.depot && day == a.slot.day
            else r in t.routes && ActiveFor(t, r, driver, depot, day))
  {
    hide Valid, Prepare, Seed;
    var (t, plan, created) := Prepare(s, a);
    PrepareValid(s, a);
    SeedRoutes(s, a);
    NewRowActive(t, FinalRow(a.NewGraph(plan)), Seed(s, a).value, driver, depot, day);
  }

  /** Demotion leaves the driver no ACTIVE route on that depot and day. */
  lemma DemotionClearsWay(s: Store, a: SeedArgs)
    requires Valid(s) && a.demote && a.status == Active
    ensures NoneActive(Prepare(s, a).0, a.driver, a.depot, a.slot.day)
  {
    var p := Purge(s, a.slot);
    PurgeDropsRoutes(s, a.slot);
    var d := MakeRoom(s, a);
    forall r | r in d.routes ensures !ActiveFor(d, r, a.driver, a.depot, a.slot.day) {
      assert p.routes[r].code != a.slot.RouteCode();
    }
    MakeRoomValid(s, a);
    PlanFewer(d, a.depot, a.slot.day, a.driver, a.depot, a.slot.day);
  }

  /** After an ACTIVE seed that demotes, the route just inserted is the driver's only ACTIVE one that day. */
  lemma ActiveSeedIsTheOne(s: Store, a: SeedArgs)
    requires Valid(s) && a.demote && a.status == Active && Seed(s, a).Some?
    ensures var u, route := Seed(s, a).value, Prepare(s, a).0.nextId;
      && route !in s.routes && route in u.routes && u.routes[route].code == a.slot.RouteCode()
      && (forall r | r in u.routes :: ActiveFor(u, r, a.driver, a.depot, a.slot.day) <==> r == route)
  {
    DemotionClearsWay(s, a);
    SeedActives(s, a, a.driver, a.depot, a.slot.day);
    SeedRoutes(s, a);
    PrepareIds(s, a);
    assert IdsBelow(s);
  }

  lemma PrepareIds(s: Store, a: SeedArgs)
    requires Valid(s)
    ensures Prepare(s, a).0.nextId >= s.nextId
  {
    PurgeDropsRoutes(s, a.slot);
  }

  /** A seed keeps "at most one" exactly when it is not ACTIVE, or demotes, or finds no other ACTIVE route. */
  lemma SeedKeepsOneActiveExactly(s: Store, a: SeedArgs)
    requires Valid(s) && Seed(s, a).Some? && OneActive(s, a.driver, a.depot, a.slot.day)
    ensures OneActive(Seed(s, a).value, a.driver, a.depot, a.slot.day) <==>
      a.status != Active || a.demote
      || forall r | r in s.routes :: !Demotable(s, r, a.driver, a.depot, a.slot.day, a.slot.RouteCode())
  {
    if a.status != Active || a.demote {
      SeedKeepsOneActive(s, a, a.driver, a.depot, a.slot.day);
    } else {
      UndemotedSeed(s, a);
    }
  }

  lemma UndemotedSeed(s: Store, a: SeedArgs)
    requires Valid(s) && Seed(s, a).Some? && OneActive(s, a.driver, a.depot, a.slot.day)
    requires a.status == Active && !a.demote
    ensures OneActive(Seed(s, a).value, a.driver, a.depot, a.slot.day) <==>
      forall r | r in s.routes :: !Demotable(s, r, a.driver, a.depot, a.slot.day, a.slot.RouteCode())
  {
    hide Valid, Prepare, Seed, ActiveFor;
    var t, u := Prepare(s, a).0, Seed(s, a).value;
    SeedActives(s, a, a.driver, a.depot, a.slot.day);
    UndemotedActives(s, a);
    assert ActiveFor(u, t.nextId, a.driver, a.depot, a.slot.day);
    if r :| r in s.routes && Demotable(s, r, a.driver, a.depot, a.slot.day, a.slot.RouteCode()) {
      assert ActiveFor(u, r, a.driver, a.depot, a.slot.day);
    }
  }

  /** Without demotion, the active routes before the insert are those not of the slot. */
  lemma UndemotedActives(s: Store, a: SeedArgs)
    requires Valid(s) && !a.demote
    ensures var t := Prepare(s, a).0;
      forall r :: r in t.routes && ActiveFor(t, r, a.driver, a.depot, a.slot.day)
        <==> r in s.routes && Demotable(s, r, a.driver, a.depot, a.slot.day, a.slot.RouteCode())
  {
    hide Valid, GetOrCreatePlan, DeleteOrders, Slot.RouteCode, Slot.OrderPattern;
    var p := MakeRoom(s, a);
    PurgeDropsRoutes(s, a.slot);
    MakeRoomValid(s, a);
    PlanFewer(p, a.depot, a.slot.day, a.driver, a.depot, a.slot.day);
  }

  ghost predicate Demotes(step: Step) {
    step.SeedStep? && step.args.status == Active ==> step.args.demote
  }

  lemma SeedKeepsOneActive(s: Store, a: SeedArgs, driver: Id, depot: Id, day: Date)
    requires Valid(s) && OneActive(s, driver, depot, day) && Demotes(SeedStep(a))
    ensures Seed(s, a).Some? ==> OneActive(Seed(s, a).value, driver, depot, day)
  {
    hide Valid, Prepare, Seed, ActiveFor;
    if Seed(s, a).Some? {
      var t := Prepare(s, a).0;
      SeedActives(s, a, driver, depot, day);
      PrepareFewer(s, a, driver, depot, day);
      FewerKeepsOne(s, t, driver, depot, day);
      if a.status == Active && driver == a.driver && depot == a.depot && day == a.slot.day {
        DemotionClearsWay(s, a);
      }
    }
  }

  lemma ClearFewer(s: Store, slot: Slot, driver: Id, depot: Id, day: Date)
    requires Valid(s)
    ensures FewerActive(s, Clear(s, slot), driver, depot, day)
  {
    var p := Purge(s, slot);
    PurgeValid(s, slot);
    PurgeFewer(s, slot, driver, depot, day);
    DroppedPlanIsIdle(p, slot.key);
  }

  lemma ApplyKeepsOneActive(s: Store, step: Step, driver: Id, depot: Id, day: Date)
    requires Valid(s) && OneActive(s, driver, depot, day) && Demotes(step)
    ensures OneActive(Apply(s, step), driver, depot, day)
  {
    match step
    case SeedStep(a) => SeedKeepsOneActive(s, a, driver, depot, day);
    case ClearStep(slot) =>
      ClearFewer(s, slot, driver, depot, day);
      FewerKeepsOne(s, Clear(s, slot), driver, depot, day);
  }

  /** Every driver, depot and day that starts with at most one ACTIVE planned route keeps at most one. */
  lemma {:induction false} RunKeepsOneActive(s: Store, steps: seq<Step>, driver: Id, depot: Id, day: Date)
    requires Valid(s) && OneActive(s, driver, depot, day)
    requires forall step :: step in steps ==> Demotes(step)
    ensures OneActive(Run(s, steps), driver, depot, day)
    decreases |steps|
  {
    if steps != [] {
      ApplyValid(s, steps[0]);
      ApplyKeepsOneActive(s, steps[0], driver, depot, day);
      RunKeepsOneActive(Apply(s, steps[0]), steps[1..], driver, depot, day);
    }
  }

  // ---- Plans that no manifest claims outlive every run ----

  /** No manifest records the plan as created by the script. */
  ghost predicate Unclaimed(s: Store, p: Id) {
    forall k | k in s.manifests && s.manifests[k].planCreatedByScript :: s.manifests[k].plan != p
  }

  ghost predicate SamePlan(s: Store, t: Store, p: Id) {
    p in s.plans && p in t.plans && t.plans[p] == s.plans[p]
  }

  lemma MakeRoomKeepsPlans(s: Store, a: SeedArgs)
    ensures var m := MakeRoom(s, a);
      m.plans == s.plans && m.manifests == s.manifests && m.nextId == s.nextId
  {
    PurgeDropsRoutes(s, a.slot);
  }

  lemma PlanKeepsPlan(s: Store, depot: Id, day: Date, p: Id)
    requires Valid(s) && p in s.plans
    ensures var (t, plan, created) := GetOrCreatePlan(s, depot, day);
      t.manifests == s.manifests && SamePlan(s, t, p) && (created ==> plan != p)
  {
  }

  lemma SeedKeepsPlan(s: Store, a: SeedArgs, p: Id)
    requires Valid(s) && p in s.plans && Unclaimed(s, p) && Seed(s, a).Some?
    ensures SamePlan(s, Seed(s, a).value, p) && Unclaimed(Seed(s, a).value, p)
  {
    hide Valid, MakeRoom, GetOrCreatePlan, InsertGraph, FinalRow, SeedArgs.NewGraph;
    var m := MakeRoom(s, a);
    MakeRoomKeepsPlans(s, a);
    MakeRoomValid(s, a);
    PlanKeepsPlan(m, a.depot, a.slot.day, p);
    var (t, plan, created) := Prepare(s, a);
    InsertGraphRoutes(t, a.NewGraph(plan));
  }

  lemma ClearPlans(s: Store, slot: Slot)
    requires Valid(s)
    ensures var drop := PlanToDrop(Purge(s, slot), slot.key);
      && Clear(s, slot).plans == s.plans - (if drop.Some? then {drop.value} else {})
      && Clear(s, slot).manifests == s.manifests - {slot.key} && Clear(s, slot).nextId == s.nextId
  {
    hide Valid, Purge;
    var p := Purge(s, slot);
    PurgeValid(s, slot);
    PurgeDropsRoutes(s, slot);
    DroppedPlanIsIdle(p, slot.key);
    if PlanToDrop(p, slot.key) == None {
      assert s.plans - {} == s.plans;
    }
  }

  /** A plan that is there and that no manifest claims is never deleted or altered by any run of seeds and clears,
      whatever the manifests claim about other plans. */
  lemma {:induction false} RunDeletesOwnPlansOnly(s: Store, steps: seq<Step>, p: Id)
    requires Valid(s) && p in s.plans && Unclaimed(s, p)
    ensures p in Run(s, steps).plans && Run(s, steps).plans[p] == s.plans[p]
    decreases |steps|
  {
    hide Valid, Seed, Clear;
    if steps != [] {
      ApplyValid(s, steps[0]);
      match steps[0] {
        case SeedStep(a) => if Seed(s, a).Some? { SeedKeepsPlan(s, a, p); }
        case ClearStep(slot) => ClearPlans(s, slot);
      }
      RunDeletesOwnPlansOnly(Apply(s, steps[0]), steps[1..], p);
    }
  }
}
