/** The tables that scripts/driver_route_assign.py reads and writes, their constraints, and each
    step of the script as a function from store to store. AssignSession runs the same steps
    statement by statement. */
module AssignStore {
  import opened Outcomes
  import opened Calendar
  import opened AssignIds

  type Id = nat

  datatype RouteStatus = Draft | Assigned | Active | Completed

  datatype Plan = Plan(depot: Id, day: Date)
  datatype Route = Route(
    plan: Option<Id>, driver: Option<Id>, code: string, routeType: string, totalStops: int, status: RouteStatus)
  datatype RouteStop = RouteStop(
    route: Id, deliveryStop: Option<Id>, order: Option<Id>, sequence: int, status: string, flow: string)
  datatype Order = Order(
    orderId: string, masterLabel: string, organization: Id, customer: Option<Id>, pickup: Option<Id>, status: string)
  datatype DeliveryStop = DeliveryStop(order: Id, trackingId: string, status: string, scheduledFor: Date)
  datatype Package = Package(order: Id, deliveryStop: Option<Id>, status: string)

  /** driver_assign_<tag>_manifest.json, one file a scenario. */
  datatype Manifest = Manifest(plan: Id, planCreatedByScript: bool, route: Id, serviceDate: Date)

  /** nextId stands for id generation: every id handed out so far is below it. */
  datatype Store = Store(
    plans: map<Id, Plan>,
    routes: map<Id, Route>,
    routeStops: map<Id, RouteStop>,
    orders: map<Id, Order>,
    deliveryStops: map<Id, DeliveryStop>,
    packages: map<Id, Package>,
    manifests: map<ScenarioKey, Manifest>,
    nextId: Id)

  // ---- Constraints the database enforces ----

  ghost predicate IdsBelow(s: Store) {
    && (forall i :: i in s.plans ==> i < s.nextId)
    && (forall i :: i in s.routes ==> i < s.nextId)
    && (forall i :: i in s.routeStops ==> i < s.nextId)
    && (forall i :: i in s.orders ==> i < s.nextId)
    && (forall i :: i in s.deliveryStops ==> i < s.nextId)
    && (forall i :: i in s.packages ==> i < s.nextId)
  }

  ghost predicate PlansUnique(s: Store) {
    forall p, q :: p in s.plans && q in s.plans && s.plans[p] == s.plans[q] ==> p == q
  }

  ghost predicate RouteCodesUnique(s: Store) {
    forall r, q :: r in s.routes && q in s.routes && s.routes[r].code == s.routes[q].code ==> r == q
  }

  ghost predicate OrdersUnique(s: Store) {
    && (forall o, q :: o in s.orders && q in s.orders && s.orders[o].orderId == s.orders[q].orderId ==> o == q)
    && (forall o, q :: o in s.orders && q in s.orders && s.orders[o].masterLabel == s.orders[q].masterLabel ==> o == q)
  }

  ghost predicate TrackingUnique(s: Store) {
    forall d, q | d in s.deliveryStops && q in s.deliveryStops ::
      s.deliveryStops[d].trackingId == s.deliveryStops[q].trackingId ==> d == q
  }

  predicate Refers<T>(ref: Option<Id>, table: map<Id, T>) {
    ref.Some? ==> ref.value in table
  }

  ghost predicate RoutesRefer(s: Store) {
    forall r :: r in s.routes ==> Refers(s.routes[r].plan, s.plans)
  }

  ghost predicate RouteStopsRefer(s: Store) {
    && (forall i :: i in s.routeStops ==> s.routeStops[i].route in s.routes)
    && (forall i :: i in s.routeStops ==> Refers(s.routeStops[i].deliveryStop, s.deliveryStops))
    && (forall i :: i in s.routeStops ==> Refers(s.routeStops[i].order, s.orders))
  }

  ghost predicate DeliveryStopsRefer(s: Store) {
    forall d :: d in s.deliveryStops ==> s.deliveryStops[d].order in s.orders
  }

  ghost predicate PackagesRefer(s: Store) {
    && (forall p :: p in s.packages ==> s.packages[p].order in s.orders)
    && (forall p :: p in s.packages ==> Refers(s.packages[p].deliveryStop, s.deliveryStops))
  }

  ghost predicate ReferencesHold(s: Store) {
    RoutesRefer(s) && RouteStopsRefer(s) && DeliveryStopsRefer(s) && PackagesRefer(s)
  }

  ghost predicate Valid(s: Store) {
    IdsBelow(s) && PlansUnique(s) && RouteCodesUnique(s) && OrdersUnique(s) && TrackingUnique(s) && ReferencesHold(s)
  }

  // ---- Cascading deletes ----

  function Nullify(ref: Option<Id>, gone: set<Id>): Option<Id> {
    if ref.Some? && ref.value in gone then None else ref
  }

  function DeleteRoutes(s: Store, gone: set<Id>): Store {
    s.(routes := s.routes - gone,
       routeStops := map i | i in s.routeStops && s.routeStops[i].route !in gone :: s.routeStops[i])
  }

  function StopsOfOrders(s: Store, gone: set<Id>): set<Id> {
    set d | d in s.deliveryStops && s.deliveryStops[d].order in gone
  }

  /** Orders take their delivery stops and packages along; references that are left become NULL. */
  function DeleteOrders(s: Store, gone: set<Id>): Store {
    var stops := StopsOfOrders(s, gone);
    s.(orders := s.orders - gone,
       deliveryStops := s.deliveryStops - stops,
       packages := map p | p in s.packages && s.packages[p].order !in gone ::
         s.packages[p].(deliveryStop := Nullify(s.packages[p].deliveryStop, stops)),
       routeStops := map i | i in s.routeStops ::
         s.routeStops[i].(deliveryStop := Nullify(s.routeStops[i].deliveryStop, stops),
                          order := Nullify(s.routeStops[i].order, gone)))
  }

  /** A plan takes its routes along. */
  function DeletePlan(s: Store, p: Id): Store {
    var t := DeleteRoutes(s, set r | r in s.routes && s.routes[r].plan == Some(p));
    t.(plans := t.plans - {p})
  }

  // ---- Purge ----

  function RoutesWithCode(s: Store, code: string): set<Id> {
    set r | r in s.routes && s.routes[r].code == code
  }

  function OrdersLike(s: Store, pattern: string): set<Id> {
    set o | o in s.orders && Like(s.orders[o].orderId, pattern)
  }

  function PurgeNamed(s: Store, code: string, pattern: string): Store {
    var t := DeleteRoutes(s, RoutesWithCode(s, code));
    DeleteOrders(t, OrdersLike(t, pattern))
  }

  /** _delete_scenario_seed_rows */
  function Purge(s: Store, slot: Slot): Store {
    PurgeNamed(s, slot.RouteCode(), slot.OrderPattern())
  }

  // ---- Demotion ----

  /** Route r is ACTIVE and planned for this driver, depot and day. */
  predicate ActiveFor(s: Store, r: Id, driver: Id, depot: Id, day: Date)
    requires r in s.routes
  {
    var row := s.routes[r];
    row.status == Active && row.driver == Some(driver)
    && row.plan.Some? && row.plan.value in s.plans && s.plans[row.plan.value] == Plan(depot, day)
  }

  predicate Demotable(s: Store, r: Id, driver: Id, depot: Id, day: Date, keepCode: string)
    requires r in s.routes
  {
    ActiveFor(s, r, driver, depot, day) && s.routes[r].code != keepCode
  }

  /** _demote_other_active_routes */
  function Demote(s: Store, driver: Id, depot: Id, day: Date, keepCode: string): Store {
    s.(routes := map r | r in s.routes ::
      if Demotable(s, r, driver, depot, day, keepCode) then s.routes[r].(status := Assigned) else s.routes[r])
  }

  // ---- Plan ----

  /** _get_or_create_plan: the store, the plan's id, and whether it was created. */
  ghost function GetOrCreatePlan(s: Store, depot: Id, day: Date): (Store, Id, bool) {
    if exists p :: p in s.plans && s.plans[p] == Plan(depot, day)
    then var p :| p in s.plans && s.plans[p] == Plan(depot, day); (s, p, false)
    else (s.(plans := s.plans[s.nextId := Plan(depot, day)], nextId := s.nextId + 1), s.nextId, true)
  }

  // ---- Inserting a stop ----

  /** What one stop of a seeded route is made of. */
  datatype StopSpec = StopSpec(
    orderId: string, masterLabel: string, trackingId: string, organization: Id, customer: Id, pickup: Option<Id>,
    orderStatus: string, stopStatus: string, packageStatus: string, day: Date, sequence: int, flow: string)

  const READY := "READY"

  /** The range of an INTEGER column. */
  predicate IsInteger(n: int) {
    -0x8000_0000 <= n < 0x8000_0000
  }

  predicate Fits(x: StopSpec) {
    && |x.orderId| <= LEN_ORDER_ID && |x.masterLabel| <= LEN_MASTER_LABEL_ID && |x.trackingId| <= LEN_TRACKING_ID
    && IsInteger(x.sequence)
  }

  ghost predicate Unused(s: Store, x: StopSpec) {
    && (forall o :: o in s.orders ==> s.orders[o].orderId != x.orderId && s.orders[o].masterLabel != x.masterLabel)
    && (forall d :: d in s.deliveryStops ==> s.deliveryStops[d].trackingId != x.trackingId)
  }

  function WithStop(s: Store, route: Id, x: StopSpec): Store {
    var n := s.nextId;
    var package := Package(n, Some(n + 1), x.packageStatus);
    s.(orders := s.orders[n := Order(x.orderId, x.masterLabel, x.organization, Some(x.customer), x.pickup, x.orderStatus)],
       deliveryStops := s.deliveryStops[n + 1 := DeliveryStop(n, x.trackingId, x.stopStatus, x.day)],
       routeStops := s.routeStops[n + 2 := RouteStop(route, Some(n + 1), None, x.sequence, READY, x.flow)],
       packages := s.packages[n + 3 := package][n + 4 := package],
       nextId := n + 5)
  }

  /** None when an id is too long for its column or already taken, or the sequence number is out of range. */
  ghost function AddStop(s: Store, route: Id, x: StopSpec): Option<Store> {
    if Fits(x) && Unused(s, x) then Some(WithStop(s, route, x)) else None
  }

  // ---- Seed ----

  datatype SeedArgs = SeedArgs(
    slot: Slot, driver: Id, depot: Id, organization: Id, customer: Id, pickup: Id,
    stops: int, status: RouteStatus, demote: bool)
  {
    function Operational(): nat {
      if stops < 0 then 0 else stops
    }

    function RouteTypeName(): string {
      if slot.key.Pickup? || slot.key.PickupReturn? then "PICKUP" else "DELIVERY"
    }

    function OrderStatus(): string {
      if RouteTypeName() == "PICKUP" then "ENROUTE_PICKUP" else "DELIVERY_IN_PROGRESS"
    }

    function StopStatus(): string {
      if RouteTypeName() == "PICKUP" then "ENROUTE_PICKUP" else "OUT_FOR_DELIVERY"
    }

    /** The operational stop with this sequence number. */
    function Operation(seqNo: nat): StopSpec {
      StopSpec(slot.OrderId(seqNo, ""), slot.MasterLabel(seqNo, ""), slot.TrackingId(seqNo, ""),
               organization, customer, None, OrderStatus(), StopStatus(), StopStatus(), slot.day, seqNo, RouteTypeName())
    }

    /** The RETURN stop, appended after the operational ones. */
    function Return(seqNo: nat): StopSpec {
      StopSpec(slot.OrderId(seqNo, RETURN_SUFFIX), slot.MasterLabel(seqNo, RETURN_SUFFIX),
               slot.TrackingId(seqNo, RETURN_SUFFIX), organization, customer, Some(pickup),
               "RETURN_IN_TRANSIT", "RETURN_IN_TRANSIT", "RETURN_IN_TRANSIT", slot.day, seqNo, "RETURN")
    }

    function NewRoute(plan: Id): Route {
      Route(Some(plan), Some(driver), slot.RouteCode(), RouteTypeName(),
            stops + (if slot.key.IncludeReturn() then 1 else 0), status)
    }

    function NewGraph(plan: Id): (g: Graph)
      ensures |g.operations| == Operational()
    {
      Graph(NewRoute(plan), seq(Operational(), i requires 0 <= i => Operation(i + 1)),
            if slot.key.IncludeReturn() then Some(Return(Operational() + 1)) else None)
    }
  }

  /** Stops inserted one after the other; the first failure stops the script. */
  ghost function AddStops(s: Store, route: Id, xs: seq<StopSpec>): Option<Store> {
    if xs == [] then Some(s)
    else match AddStops(s, route, xs[..|xs| - 1])
      case None => None
      case Some(t) => AddStop(t, route, xs[|xs| - 1])
  }

  /** append_return_route_stop: one more stop, and the route's counter goes up by one; None when it cannot. */
  ghost function AppendReturn(s: Store, route: Id, x: StopSpec): Option<Store>
    requires route in s.routes
  {
    match AddStop(s, route, x)
    case None => None
    case Some(t) =>
      var row := t.routes[route];
      if IsInteger(row.totalStops + 1) then Some(t.(routes := t.routes[route := row.(totalStops := row.totalStops + 1)]))
      else None
  }

  function WithRoute(s: Store, row: Route): Store {
    s.(routes := s.routes[s.nextId := row], nextId := s.nextId + 1)
  }

  lemma {:induction false} AddStopsKeepsRoutes(s: Store, route: Id, xs: seq<StopSpec>)
    ensures AddStops(s, route, xs).Some? ==>
      var t := AddStops(s, route, xs).value;
      t.routes == s.routes && t.plans == s.plans && t.manifests == s.manifests && t.nextId == s.nextId + 5 * |xs|
  {
    if xs != [] {
      AddStopsKeepsRoutes(s, route, xs[..|xs| - 1]);
    }
  }

  /** What a seed inserts: a route, its operational stops and, for return scenarios, a RETURN stop. */
  datatype Graph = Graph(row: Route, operations: seq<StopSpec>, back: Option<StopSpec>)

  ghost function InsertGraph(s: Store, g: Graph): Option<Store> {
    var route := s.nextId;
    AddStopsKeepsRoutes(WithRoute(s, g.row), route, g.operations);
    if !IsInteger(g.row.totalStops) then None
    else match AddStops(WithRoute(s, g.row), route, g.operations)
      case None => None
      case Some(t) => if g.back.Some? then AppendReturn(t, route, g.back.value) else Some(t)
  }

  /** The slot's old rows removed and, for an ACTIVE seed that demotes, the driver's other ACTIVE routes demoted. */
  function MakeRoom(s: Store, a: SeedArgs): Store {
    var p := Purge(s, a.slot);
    if a.demote && a.status == Active then Demote(p, a.driver, a.depot, a.slot.day, a.slot.RouteCode()) else p
  }

  /** The store just before the graph is inserted, with the plan and whether it was created. */
  ghost function Prepare(s: Store, a: SeedArgs): (Store, Id, bool) {
    GetOrCreatePlan(MakeRoom(s, a), a.depot, a.slot.day)
  }

  /** run_assign: None when it raised, in which case everything is rolled back. */
  ghost function Seed(s: Store, a: SeedArgs): Option<Store> {
    var (t, plan, created) := Prepare(s, a);
    match InsertGraph(t, a.NewGraph(plan))
    case None => None
    case Some(u) => Some(u.(manifests := u.manifests[a.slot.key := Manifest(plan, created, t.nextId, a.slot.day)]))
  }

  // ---- Clear ----

  ghost predicate PlanInUse(s: Store, p: Id) {
    exists r :: r in s.routes && s.routes[r].plan == Some(p)
  }

  /** The plan that clear deletes after its purge, if any. */
  ghost function PlanToDrop(s: Store, key: ScenarioKey): (drop: Option<Id>)
    ensures drop.Some? ==>
      && key in s.manifests && s.manifests[key].planCreatedByScript && s.manifests[key].plan == drop.value
      && drop.value in s.plans && !PlanInUse(s, drop.value)
  {
    if key in s.manifests && s.manifests[key].planCreatedByScript
       && !PlanInUse(s, s.manifests[key].plan) && s.manifests[key].plan in s.plans
    then Some(s.manifests[key].plan) else None
  }

  /** clear_today_driver_route */
  ghost function Clear(s: Store, slot: Slot): Store {
    var p := Purge(s, slot);
    var drop := PlanToDrop(p, slot.key);
    var q := if drop.Some? then DeletePlan(p, drop.value) else p;
    q.(manifests := q.manifests - {slot.key})
  }

  // ---- Runs ----

  datatype Step = SeedStep(args: SeedArgs) | ClearStep(slot: Slot)

  ghost function Apply(s: Store, step: Step): Store {
    match step
    case SeedStep(a) => (match Seed(s, a) case Some(t) => t case None => s)
    case ClearStep(slot) => Clear(s, slot)
  }

  ghost function Run(s: Store, steps: seq<Step>): Store
    decreases |steps|
  {
    if steps == [] then s else Run(Apply(s, steps[0]), steps[1..])
  }
}
