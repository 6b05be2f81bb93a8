/** Migrations 0077-0079: legacy suspension rules and per-organisation trigger lists become rule sets with
    condition rows under uniqueness constraints, and activity rows are linked to them. */
module SuspensionBackfill {
  import opened Outcomes

  type Uuid = string

  datatype ConditionType = InvoiceOverdueDays | TotalOverdueAmount | CreditUtilization | CreditNotClearedAfterDueDate

  datatype Scope = Global | Org(organization: Uuid)

  datatype RuleSet = RuleSet(
    name: string, scope: Scope, ruleType: string, status: string,
    autoSuspension: bool, pauseBookings: bool, restrictLogin: bool, notifyFinance: bool, notifyManager: bool)

  /** The threshold is in hundredths, the scale of its column. */
  datatype Condition = Condition(
    ruleSet: Uuid, position: int, connector: string, conditionType: ConditionType, threshold: int)

  /** The two new tables. Condition ids are generated and unique by construction, so rows are a sequence. */
  datatype Tables = Tables(ruleSets: map<Uuid, RuleSet>, conditions: seq<Condition>)

  const EMPTY := Tables(map[], [])
  const CREDIT_LIMIT := "CREDIT_LIMIT"

  // Column types: INTEGER, and NUMERIC(10, 2) and NUMERIC(5, 2) in hundredths.
  type Integer = n: int | -0x8000_0000 <= n < 0x8000_0000
  type Amount = n: int | -10_000_000_000 < n < 10_000_000_000
  type Percent = n: int | -100_000 < n < 100_000

  /** A row of suspension_rule. */
  datatype LegacyRule = LegacyRule(
    id: Uuid, name: string, status: string, trigger: string,
    overdueDays: Option<Integer>, overdueAmount: Option<Amount>, utilisation: Option<Percent>, notifyFinance: bool)

  /** A JSON value that int() takes, and whether Python takes it for true: 0 is false, "0" is true. */
  datatype JsonInt = JsonInt(value: int, truthy: bool)

  /** One element of a trigger_conditions list; None is a missing or null field. */
  datatype Item = Item(
    conditionType: Option<string>, position: Option<JsonInt>, operator: Option<string>, value: Option<real>)

  /** A row of org_suspension_configs. */
  datatype OrgConfig = OrgConfig(
    id: Uuid, organization: Option<Uuid>, triggers: Option<seq<Item>>,
    autoSuspension: bool, pauseBookings: bool, restrictLogin: bool, notifyFinance: bool, notifyManager: bool)

  // ---- Constraints ----

  /** uq_susp_rule_cond_unique_type_per_rule or uq_susp_rule_cond_unique_position_per_rule would be broken. */
  predicate Clash(a: Condition, b: Condition) {
    a.ruleSet == b.ruleSet && (a.conditionType == b.conditionType || a.position == b.position)
  }

  predicate ClashFree(rows: seq<Condition>) {
    forall i, j :: 0 <= i < j < |rows| ==> !Clash(rows[i], rows[j])
  }

  predicate Conflicts(rows: seq<Condition>, c: Condition) {
    exists r :: r in rows && Clash(r, c)
  }

  /** uq_susp_rule_sets_scope_org_type; a NULL organisation never equals another. */
  predicate SameScope(a: RuleSet, b: RuleSet) {
    a.scope.Org? && a.scope == b.scope && a.ruleType == b.ruleType
  }

  predicate NameTaken(sets: map<Uuid, RuleSet>, name: string) {
    exists id :: id in sets && sets[id].name == name
  }

  predicate ScopeTaken(sets: map<Uuid, RuleSet>, row: RuleSet) {
    exists id :: id in sets && SameScope(sets[id], row)
  }

  ghost predicate Valid(t: Tables) {
    && (forall a, b :: a in t.ruleSets && b in t.ruleSets && t.ruleSets[a].name == t.ruleSets[b].name ==> a == b)
    && (forall a, b :: a in t.ruleSets && b in t.ruleSets && SameScope(t.ruleSets[a], t.ruleSets[b]) ==> a == b)
    && ClashFree(t.conditions)
    && (forall c :: c in t.conditions ==> c.ruleSet in t.ruleSets)
  }

  // ---- INSERT INTO suspension_rule_sets ----

  ghost function InsertRuleSet(t: Tables, id: Uuid, row: RuleSet): Option<Tables>
    requires id !in t.ruleSets
  {
    if NameTaken(t.ruleSets, row.name) || ScopeTaken(t.ruleSets, row) then None
    else Some(t.(ruleSets := t.ruleSets[id := row]))
  }

  // ---- INSERT INTO suspension_rule_conditions ----

  const LEN_CONNECTOR := 8
  const THRESHOLD_LIMIT := 1_000_000_000_000

  /** The row fits its columns: INTEGER, VARCHAR(8) and NUMERIC(12, 2). One that does not is an error, also under
      ON CONFLICT DO NOTHING. */
  predicate Storable(c: Condition) {
    && -0x8000_0000 <= c.position < 0x8000_0000 && |c.connector| <= LEN_CONNECTOR
    && -THRESHOLD_LIMIT < c.threshold < THRESHOLD_LIMIT
  }

  predicate AllStorable(cs: seq<Condition>) {
    forall c :: c in cs ==> Storable(c)
  }

  /** Plain inserts, one row after the other: the first row that does not fit or conflicts fails. */
  ghost function InsertAll(rows: seq<Condition>, cs: seq<Condition>): Option<seq<Condition>> {
    if cs == [] then Some(rows)
    else match InsertAll(rows, cs[..|cs| - 1])
      case None => None
      case Some(u) =>
        if !Storable(cs[|cs| - 1]) || Conflicts(u, cs[|cs| - 1]) then None else Some(u + [cs[|cs| - 1]])
  }

  /** ON CONFLICT DO NOTHING, one row after the other: the first row that does not fit fails. */
  ghost function InsertOrSkip(rows: seq<Condition>, cs: seq<Condition>): Option<seq<Condition>> {
    if cs == [] then Some(rows)
    else match InsertOrSkip(rows, cs[..|cs| - 1])
      case None => None
      case Some(u) =>
        var c := cs[|cs| - 1];
        if !Storable(c) then None else if Conflicts(u, c) then Some(u) else Some(u + [c])
  }

  /** The rows left when all of them fit. */
  ghost function InsertKeeping(rows: seq<Condition>, cs: seq<Condition>): seq<Condition> {
    if cs == [] then rows
    else
      var u := InsertKeeping(rows, cs[..|cs| - 1]);
      if Conflicts(u, cs[|cs| - 1]) then u else u + [cs[|cs| - 1]]
  }

  lemma {:induction false} SkippingFailsExactly(rows: seq<Condition>, cs: seq<Condition>)
    ensures InsertOrSkip(rows, cs) == if AllStorable(cs) then Some(InsertKeeping(rows, cs)) else None
  {
    hide Storable, Conflicts;
    if cs != [] {
      SkippingFailsExactly(rows, cs[..|cs| - 1]);
      assert forall c :: c in cs <==> c in cs[..|cs| - 1] || c == cs[|cs| - 1];
    }
  }

  // ---- Legacy rules ----

  function OrZero(v: Option<int>): int {
    match v case None => 0 case Some(x) => x
  }

  const NO_CONNECTOR := "NONE"

  function LegacyConditions(r: LegacyRule): seq<Condition> {
    if r.trigger == "OVERDUE_DAYS" then
      [Condition(r.id, 1, NO_CONNECTOR, InvoiceOverdueDays, 100 * OrZero(r.overdueDays))]
    else if r.trigger == "OVERDUE_AMOUNT" then
      [Condition(r.id, 1, NO_CONNECTOR, TotalOverdueAmount, OrZero(r.overdueAmount))]
    else if r.trigger == "OVERDUE_DAYS_AND_AMOUNT" then
      [Condition(r.id, 1, NO_CONNECTOR, InvoiceOverdueDays, 100 * OrZero(r.overdueDays)),
       Condition(r.id, 2, "AND", TotalOverdueAmount, OrZero(r.overdueAmount))]
    else if r.trigger == "CREDIT_UTILISATION_PERCENT" then
      [Condition(r.id, 1, NO_CONNECTOR, CreditUtilization, OrZero(r.utilisation))]
    else if r.trigger == "CREDIT_NOT_CLEARED_AFTER_CLEARING_DATE" then
      [Condition(r.id, 1, NO_CONNECTOR, CreditNotClearedAfterDueDate, 100 * OrZero(r.overdueDays))]
    else []
  }

  function LegacyRuleSet(r: LegacyRule): RuleSet {
    RuleSet(r.name, Global, CREDIT_LIMIT, r.status, true, false, true, r.notifyFinance, false)
  }

  ghost function MigrateRule(t: Tables, r: LegacyRule): Option<Tables> {
    if r.id in t.ruleSets then Some(t)
    else match InsertRuleSet(t, r.id, LegacyRuleSet(r))
      case None => None
      case Some(u) =>
        match InsertAll(u.conditions, LegacyConditions(r))
        case None => None
        case Some(rows) => Some(u.(conditions := rows))
  }

  ghost function MigrateRules(t: Tables, rules: seq<LegacyRule>): Option<Tables> {
    if rules == [] then Some(t)
    else match MigrateRules(t, rules[..|rules| - 1])
      case None => None
      case Some(u) => MigrateRule(u, rules[|rules| - 1])
  }

  // ---- Organisation overrides ----

  /** Unknown and missing types fall back to invoice overdue days. */
  function MappedType(text: Option<string>): ConditionType {
    if text == Some("TOTAL_OVERDUE_AMOUNT") then TotalOverdueAmount
    else if text == Some("CREDIT_UTILIZATION") then CreditUtilization
    else if text == Some("CREDIT_NOT_CLEARED_AFTER_DUE_DATE") then CreditNotClearedAfterDueDate
    else InvoiceOverdueDays
  }

  /** What NUMERIC(12, 2) makes of a number, in hundredths: ties round away from zero. */
  function Hundredths(x: real): int {
    if x >= 0.0 then (x * 100.0 + 0.5).Floor else -((-x * 100.0 + 0.5).Floor)
  }

  /** What VARCHAR(8) makes of a text: spaces beyond the length are cut off. */
  function Trimmed(s: string): string {
    if |s| > LEN_CONNECTOR && (forall c :: c in s[LEN_CONNECTOR..] ==> c == ' ') then s[..LEN_CONNECTOR] else s
  }

  function ItemRow(ruleSet: Uuid, x: Item): Condition {
    Condition(ruleSet,
              if x.position.Some? && x.position.value.truthy then x.position.value.value else 1,
              if x.operator == None || x.operator == Some("") then NO_CONNECTOR else Trimmed(x.operator.value),
              MappedType(x.conditionType),
              if x.value.Some? then Hundredths(x.value.value) else 0)
  }

  function ItemRows(c: OrgConfig): seq<Condition> {
    match c.triggers
    case None => []
    case Some(items) => seq(|items|, i requires 0 <= i < |items| => ItemRow(c.id, items[i]))
  }

  function OverrideName(organization: Uuid): string {
    "OrgOverride-" + organization
  }

  predicate Skipped(c: OrgConfig) {
    c.organization == None || c.organization == Some("")
  }

  function OverrideRuleSet(c: OrgConfig): RuleSet
    requires !Skipped(c)
  {
    RuleSet(OverrideName(c.organization.value), Org(c.organization.value), CREDIT_LIMIT, "ACTIVE",
            c.autoSuspension, c.pauseBookings, c.restrictLogin, c.notifyFinance, c.notifyManager)
  }

  ghost function MigrateConfig(t: Tables, c: OrgConfig): Option<Tables> {
    if Skipped(c) then Some(t)
    else match (if c.id in t.ruleSets then Some(t) else InsertRuleSet(t, c.id, OverrideRuleSet(c)))
      case None => None
      case Some(u) =>
        match InsertOrSkip(u.conditions, ItemRows(c))
        case None => None
        case Some(rows) => Some(u.(conditions := rows))
  }

  ghost function MigrateConfigs(t: Tables, configs: seq<OrgConfig>): Option<Tables> {
    if configs == [] then Some(t)
    else match MigrateConfigs(t, configs[..|configs| - 1])
      case None => None
      case Some(u) => MigrateConfig(u, configs[|configs| - 1])
  }

  /** The backfill of 0077; None when a statement fails and the migration is rolled back. */
  ghost function Upgrade(t: Tables, rules: seq<LegacyRule>, configs: seq<OrgConfig>): Option<Tables> {
    match MigrateRules(t, rules)
    case None => None
    case Some(u) => MigrateConfigs(u, configs)
  }

  // ---- 0078 and 0079 ----

  /** A row of suspension_activity. */
  datatype Activity = Activity(ruleId: Option<Uuid>, ruleSetId: Option<Uuid>)

  function Bridged(t: Tables, a: Activity): Activity {
    if a.ruleSetId.None? && a.ruleId.Some? && a.ruleId.value in t.ruleSets then a.(ruleSetId := a.ruleId) else a
  }

  /** The UPDATE that 0078 and 0079 both run. */
  function Bridge(t: Tables, rows: map<Uuid, Activity>): map<Uuid, Activity> {
    map i | i in rows :: Bridged(t, rows[i])
  }

  // ---- Which conditions of a trigger list survive ----

  /** No earlier survivor shares the condition's type or position. */
  ghost predicate Survives(cs: seq<Condition>, i: nat)
    requires i < |cs|
    decreases i
  {
    forall j | 0 <= j < i :: Survives(cs, j) ==> !Clash(cs[j], cs[i])
  }

  /** The survivors in list order. */
  ghost function Survivors(cs: seq<Condition>): seq<Condition> {
    if cs == [] then []
    else Survivors(cs[..|cs| - 1]) + (if Survives(cs, |cs| - 1) then [cs[|cs| - 1]] else [])
  }

  lemma {:induction false} SurvivesInPrefix(cs: seq<Condition>, k: nat, i: nat)
    requires i < k <= |cs|
    ensures Survives(cs[..k], i) <==> Survives(cs, i)
    decreases i
  {
    forall j | 0 <= j < i ensures Survives(cs[..k], j) <==> Survives(cs, j) {
      SurvivesInPrefix(cs, k, j);
    }
  }

  lemma {:induction false} SurvivorsAre(cs: seq<Condition>, c: Condition)
    ensures c in Survivors(cs) <==> exists i :: 0 <= i < |cs| && Survives(cs, i) && cs[i] == c
  {
    if cs != [] {
      var init := cs[..|cs| - 1];
      SurvivorsAre(init, c);
      forall i | 0 <= i < |init| ensures Survives(init, i) <==> Survives(cs, i) {
        SurvivesInPrefix(cs, |init|, i);
      }
      if i :| 0 <= i < |cs| && Survives(cs, i) && cs[i] == c {
        if i < |init| {
          assert Survives(init, i) && init[i] == c;
        }
      }
    }
  }

  /** Inserted into a rule set without conditions, a list leaves exactly its survivors. */
  lemma {:induction false} KeepingLeavesSurvivors(rows: seq<Condition>, cs: seq<Condition>, id: Uuid)
    requires forall r :: r in rows ==> r.ruleSet != id
    requires forall c :: c in cs ==> c.ruleSet == id
    ensures InsertKeeping(rows, cs) == rows + Survivors(cs)
  {
    if cs != [] {
      var init, c := cs[..|cs| - 1], cs[|cs| - 1];
      KeepingLeavesSurvivors(rows, init, id);
      var u := rows + Survivors(init);
      assert Conflicts(u, c) <==> !Survives(cs, |cs| - 1) by {
        forall i | 0 <= i < |init| ensures Survives(init, i) <==> Survives(cs, i) {
          SurvivesInPrefix(cs, |init|, i);
        }
        if Conflicts(u, c) {
          var r :| r in u && Clash(r, c);
          assert r in Survivors(init);
          SurvivorsAre(init, r);
        }
        if !Survives(cs, |cs| - 1) {
          var j :| 0 <= j < |cs| - 1 && Survives(cs, j) && Clash(cs[j], c);
          SurvivorsAre(init, cs[j]);
          assert init[j] == cs[j];
        }
      }
    }
  }

  /** A condition of a list for one rule set survives exactly when no earlier survivor has its type or its position. */
  lemma SurvivesExactly(cs: seq<Condition>, i: nat)
    requires i < |cs| && forall c :: c in cs ==> c.ruleSet == cs[0].ruleSet
    ensures Survives(cs, i) <==>
      forall j :: 0 <= j < i && Survives(cs, j) ==> cs[j].conditionType != cs[i].conditionType && cs[j].position != cs[i].position
  {
    assert forall j :: 0 <= j < |cs| ==> cs[j] in cs;
  }

  /** Every condition that did not survive clashes with one that did: no survivor could be added. */
  lemma SurvivorsAreMaximal(cs: seq<Condition>, i: nat)
    requires i < |cs|
    ensures Conflicts(Survivors(cs), cs[i])
    ensures !Survives(cs, i) ==> exists j :: 0 <= j < i && Survives(cs, j) && Clash(cs[j], cs[i])
  {
    if Survives(cs, i) {
      SurvivorsAre(cs, cs[i]);
      assert Clash(cs[i], cs[i]);
    } else {
      var j :| 0 <= j < i && Survives(cs, j) && Clash(cs[j], cs[i]);
      SurvivorsAre(cs, cs[j]);
    }
  }

  lemma {:induction false} SurvivorsClashFree(cs: seq<Condition>)
    ensures ClashFree(Survivors(cs))
  {
    if cs != [] {
      var init, c := cs[..|cs| - 1], cs[|cs| - 1];
      SurvivorsClashFree(init);
      if Survives(cs, |cs| - 1) {
        forall r | r in Survivors(init) ensures !Clash(r, c) {
          SurvivorsAre(init, r);
          var j :| 0 <= j < |init| && Survives(init, j) && init[j] == r;
          SurvivesInPrefix(cs, |init|, j);
        }
      }
    }
  }

  function TypesOf(rows: seq<Condition>): set<ConditionType> {
    set r | r in rows :: r.conditionType
  }

  lemma TypesOfSnoc(rows: seq<Condition>, c: Condition)
    requires forall r :: r in rows ==> r.conditionType != c.conditionType
    ensures |TypesOf(rows + [c])| == |TypesOf(rows)| + 1
  {
    assert forall r :: r in rows + [c] <==> r in rows || r == c;
    assert TypesOf(rows + [c]) == TypesOf(rows) + {c.conditionType};
  }

  lemma NewType(rows: seq<Condition>, c: Condition, id: Uuid)
    requires ClashFree(rows + [c]) && c.ruleSet == id && forall r :: r in rows ==> r.ruleSet == id
    ensures ClashFree(rows) && forall r :: r in rows ==> r.conditionType != c.conditionType
  {
    var all := rows + [c];
    forall r | r in rows ensures r.conditionType != c.conditionType {
      var i :| 0 <= i < |rows| && rows[i] == r;
      assert !Clash(all[i], all[|rows|]);
    }
    assert forall i :: 0 <= i < |rows| ==> all[i] == rows[i];
  }

  lemma {:induction false} TypesCount(rows: seq<Condition>, id: Uuid)
    requires ClashFree(rows) && forall r :: r in rows ==> r.ruleSet == id
    ensures |TypesOf(rows)| == |rows|
  {
    if rows == [] {
      assert TypesOf(rows) == {};
    } else {
      hide TypesOf, ClashFree;
      var init, c := rows[..|rows| - 1], rows[|rows| - 1];
      assert rows == init + [c];
      NewType(init, c, id);
      TypesOfSnoc(init, c);
      TypesCount(init, id);
    }
  }

  /** A rule set never has more than four conditions, one of each type, however long its list was. */
  lemma AtMostFour(rows: seq<Condition>, id: Uuid)
    requires ClashFree(rows) && forall r :: r in rows ==> r.ruleSet == id
    ensures |rows| <= 4
  {
    var all := {InvoiceOverdueDays, TotalOverdueAmount, CreditUtilization, CreditNotClearedAfterDueDate};
    TypesCount(rows, id);
    forall x | x in TypesOf(rows) ensures x in all {
      match x
      case InvoiceOverdueDays =>
      case TotalOverdueAmount =>
      case CreditUtilization =>
      case CreditNotClearedAfterDueDate =>
    }
    SubsetSize(TypesOf(rows), all);
  }

  lemma SubsetSize(a: set<ConditionType>, b: set<ConditionType>)
    requires a <= b
    ensures |a| <= |b|
  {
    assert b == a + (b - a);
  }

  /** A list is kept in full exactly when no two of its conditions share a type or a position. */
  lemma KeptInFullExactly(cs: seq<Condition>)
    ensures Survivors(cs) == cs <==> ClashFree(cs)
  {
    if Survivors(cs) == cs {
      SurvivorsClashFree(cs);
    }
    if ClashFree(cs) {
      AllSurvive(cs);
    }
  }

  lemma {:induction false} AllSurvive(cs: seq<Condition>)
    requires ClashFree(cs)
    ensures Survivors(cs) == cs
  {
    if cs != [] {
      AllSurvive(cs[..|cs| - 1]);
      assert cs == cs[..|cs| - 1] + [cs[|cs| - 1]];
    }
  }

  /** Where positions are distinct, as the API demands of new lists, the first condition of each type is kept. */
  lemma {:induction false} DistinctPositionsKeepFirstOfType(cs: seq<Condition>, i: nat)
    requires i < |cs| && forall j, k :: 0 <= j < k < |cs| ==> cs[j].position != cs[k].position
    requires forall c :: c in cs ==> c.ruleSet == cs[0].ruleSet
    ensures Survives(cs, i) <==> forall j :: 0 <= j < i ==> cs[j].conditionType != cs[i].conditionType
    decreases i
  {
  }

  // ---- Insertion in general ----

  lemma {:induction false} KeepingExtends(rows: seq<Condition>, cs: seq<Condition>)
    ensures rows <= InsertKeeping(rows, cs)
    ensures forall c :: c in cs ==> Conflicts(InsertKeeping(rows, cs), c)
    ensures ClashFree(rows) ==> ClashFree(InsertKeeping(rows, cs))
    ensures forall r :: r in InsertKeeping(rows, cs) ==> r in rows || r in cs
  {
    if cs != [] {
      var init, c := cs[..|cs| - 1], cs[|cs| - 1];
      KeepingExtends(rows, init);
      var u, v := InsertKeeping(rows, init), InsertKeeping(rows, cs);
      assert forall d :: d in cs ==> d in init || d == c;
      ConflictsGrow(u, v);
      if !Conflicts(u, c) {
        assert v[|u|] == c && Clash(c, c);
        ClashFreeAdd(u, c);
      }
    }
  }

  lemma ClashFreeAdd(u: seq<Condition>, c: Condition)
    requires !Conflicts(u, c)
    ensures ClashFree(u) ==> ClashFree(u + [c])
  {
  }

  lemma ConflictsGrow(u: seq<Condition>, v: seq<Condition>)
    requires u <= v
    ensures forall c :: Conflicts(u, c) ==> Conflicts(v, c)
  {
  }

  lemma {:induction false} KeepingNothing(rows: seq<Condition>, cs: seq<Condition>)
    requires forall c :: c in cs ==> Conflicts(rows, c)
    ensures InsertKeeping(rows, cs) == rows
  {
    if cs != [] {
      KeepingNothing(rows, cs[..|cs| - 1]);
    }
  }

  lemma LegacyConditionsFit(t: Tables, r: LegacyRule)
    requires Valid(t) && r.id !in t.ruleSets
    ensures InsertAll(t.conditions, LegacyConditions(r)) == Some(t.conditions + LegacyConditions(r))
    ensures ClashFree(t.conditions + LegacyConditions(r))
  {
    var cs := LegacyConditions(r);
    assert forall c :: c in t.conditions ==> c.ruleSet != r.id;
    LegacyConditionsClashFree(r);
    InsertAllFits(t.conditions, cs, r.id);
  }

  lemma LegacyConditionsClashFree(r: LegacyRule)
    ensures ClashFree(LegacyConditions(r))
    ensures forall c :: c in LegacyConditions(r) ==> c.ruleSet == r.id
    ensures AllStorable(LegacyConditions(r))
  {
    var cs := LegacyConditions(r);
    assert |cs| == 2 ==> !Clash(cs[0], cs[1]);
  }

  lemma {:induction false} InsertAllFits(rows: seq<Condition>, cs: seq<Condition>, id: Uuid)
    requires ClashFree(rows) && ClashFree(cs) && AllStorable(cs)
    requires (forall r :: r in rows ==> r.ruleSet != id) && (forall c :: c in cs ==> c.ruleSet == id)
    ensures InsertAll(rows, cs) == Some(rows + cs) && ClashFree(rows + cs)
  {
    if cs == [] {
      assert rows + cs == rows;
    } else {
      var init, c := cs[..|cs| - 1], cs[|cs| - 1];
      InsertAllFits(rows, init, id);
      assert rows + cs == rows + init + [c];
      assert !Conflicts(rows + init, c) by {
        forall r | r in rows + init ensures !Clash(r, c) {
          if r in init {
            var i :| 0 <= i < |init| && init[i] == r;
            assert !Clash(cs[i], cs[|cs| - 1]);
          }
        }
      }
      ClashFreeAdd(rows + init, c);
    }
  }

  // ---- The whole backfill ----

  ghost predicate Extends(s: Tables, t: Tables) {
    && (forall id :: id in s.ruleSets ==> id in t.ruleSets && t.ruleSets[id] == s.ruleSets[id])
    && s.conditions <= t.conditions
  }

  lemma InsertRuleSetValid(t: Tables, id: Uuid, row: RuleSet)
    requires Valid(t) && id !in t.ruleSets
    ensures InsertRuleSet(t, id, row).Some? ==>
      Valid(InsertRuleSet(t, id, row).value) && Extends(t, InsertRuleSet(t, id, row).value)
  {
  }

  /** A legacy rule that is not there yet brings its rule set and its conditions, unless its name is taken. */
  lemma MigrateRuleOutcome(t: Tables, r: LegacyRule)
    requires Valid(t)
    ensures MigrateRule(t, r) ==
      if r.id in t.ruleSets then Some(t)
      else if NameTaken(t.ruleSets, r.name) then None
      else Some(Tables(t.ruleSets[r.id := LegacyRuleSet(r)], t.conditions + LegacyConditions(r)))
    ensures MigrateRule(t, r).Some? ==> Valid(MigrateRule(t, r).value) && Extends(t, MigrateRule(t, r).value)
  {
    hide LegacyConditions, InsertAll, ClashFree;
    if r.id !in t.ruleSets {
      assert !ScopeTaken(t.ruleSets, LegacyRuleSet(r));
      LegacyConditionsFit(t, r);
      LegacyConditionsClashFree(r);
      InsertRuleSetValid(t, r.id, LegacyRuleSet(r));
    }
  }

  lemma MigrateConfigOutcome(t: Tables, c: OrgConfig)
    requires Valid(t)
    ensures MigrateConfig(t, c).Some? ==>
      var u := MigrateConfig(t, c).value;
      && Valid(u) && Extends(t, u)
      && (!Skipped(c) ==> c.id in u.ruleSets && AllStorable(ItemRows(c)))
      && (!Skipped(c) ==> forall row :: row in ItemRows(c) ==> Conflicts(u.conditions, row))
  {
    hide ClashFree, Clash, InsertKeeping, InsertOrSkip, Storable, ItemRow, Survivors;
    if !Skipped(c) {
      SkippingFailsExactly(t.conditions, ItemRows(c));
      KeepingExtends(t.conditions, ItemRows(c));
      if c.id !in t.ruleSets {
        InsertRuleSetValid(t, c.id, OverrideRuleSet(c));
      }
      ItemRowsBelong(c);
    }
  }

  lemma ItemRowsBelong(c: OrgConfig)
    ensures forall row :: row in ItemRows(c) ==> row.ruleSet == c.id
  {
  }

  lemma {:induction false} MigrateRulesValid(t: Tables, rules: seq<LegacyRule>)
    requires Valid(t)
    ensures MigrateRules(t, rules).Some? ==>
      var u := MigrateRules(t, rules).value;
      Valid(u) && Extends(t, u) && forall r :: r in rules ==> r.id in u.ruleSets
  {
    hide Valid, MigrateRule;
    if rules != [] {
      var init, r := rules[..|rules| - 1], rules[|rules| - 1];
      MigrateRulesValid(t, init);
      if MigrateRules(t, init).Some? {
        MigrateRuleOutcome(MigrateRules(t, init).value, r);
        assert forall x :: x in rules ==> x in init || x == r;
      }
    }
  }

  /** What a finished organisation loop leaves nothing to do for. */
  ghost predicate Settled(t: Tables, configs: seq<OrgConfig>) {
    forall c | c in configs && !Skipped(c) ::
      c.id in t.ruleSets && AllStorable(ItemRows(c)) && forall row :: row in ItemRows(c) ==> Conflicts(t.conditions, row)
  }

  lemma SettledStays(t: Tables, u: Tables, configs: seq<OrgConfig>)
    requires Settled(t, configs) && Extends(t, u)
    ensures Settled(u, configs)
  {
  }

  lemma {:induction false} MigrateConfigsValid(t: Tables, configs: seq<OrgConfig>)
    requires Valid(t)
    ensures MigrateConfigs(t, configs).Some? ==>
      var u := MigrateConfigs(t, configs).value;
      Valid(u) && Extends(t, u) && Settled(u, configs)
  {
    hide Valid, MigrateConfig, Conflicts, ItemRows;
    if configs != [] {
      var init, c := configs[..|configs| - 1], configs[|configs| - 1];
      MigrateConfigsValid(t, init);
      if MigrateConfigs(t, configs).Some? {
        var u, v := MigrateConfigs(t, init).value, MigrateConfigs(t, configs).value;
        MigrateConfigOutcome(u, c);
        SettledStays(u, v, init);
        assert forall x :: x in configs ==> x in init || x == c;
      }
    }
  }

  /** The unique constraints and the foreign key, spelled out. */
  ghost predicate Constrained(t: Tables) {
    && (forall a, b :: a in t.ruleSets && b in t.ruleSets && a != b ==> t.ruleSets[a].name != t.ruleSets[b].name)
    && (forall a, b :: a in t.ruleSets && b in t.ruleSets && a != b && t.ruleSets[a].scope.Org? ==>
          t.ruleSets[a].scope != t.ruleSets[b].scope || t.ruleSets[a].ruleType != t.ruleSets[b].ruleType)
    && (forall i, j :: 0 <= i < j < |t.conditions| && t.conditions[i].ruleSet == t.conditions[j].ruleSet ==>
          && t.conditions[i].conditionType != t.conditions[j].conditionType
          && t.conditions[i].position != t.conditions[j].position)
    && (forall c :: c in t.conditions ==> c.ruleSet in t.ruleSets)
  }

  lemma ValidConstrains(t: Tables)
    requires Valid(t)
    ensures Constrained(t)
  {
    forall i, j | 0 <= i < j < |t.conditions| && t.conditions[i].ruleSet == t.conditions[j].ruleSet
      ensures t.conditions[i].conditionType != t.conditions[j].conditionType && t.conditions[i].position != t.conditions[j].position
    {
      assert !Clash(t.conditions[i], t.conditions[j]);
    }
    forall a, b | a in t.ruleSets && b in t.ruleSets && a != b && t.ruleSets[a].scope.Org?
      ensures t.ruleSets[a].scope != t.ruleSets[b].scope || t.ruleSets[a].ruleType != t.ruleSets[b].ruleType
    {
      assert !SameScope(t.ruleSets[a], t.ruleSets[b]);
    }
  }

  /** No insert of 0077 ever breaks a uniqueness constraint or the reference to the rule set, and what was there stays. */
  lemma UpgradeKeepsConstraints(t: Tables, rules: seq<LegacyRule>, configs: seq<OrgConfig>)
    requires Valid(t)
    ensures Upgrade(t, rules, configs).Some? ==>
      var u := Upgrade(t, rules, configs).value;
      && Valid(u) && Extends(t, u) && Settled(u, configs)
      && forall r :: r in rules ==> r.id in u.ruleSets
    ensures Upgrade(t, rules, configs).Some? ==> Constrained(Upgrade(t, rules, configs).value)
  {
    hide Valid, Settled, MigrateRules, MigrateConfigs, Constrained;
    if Upgrade(t, rules, configs).Some? && Valid(Upgrade(t, rules, configs).value) {
      ValidConstrains(Upgrade(t, rules, configs).value);
    }
    MigrateRulesValid(t, rules);
    if MigrateRules(t, rules).Some? {
      MigrateConfigsValid(MigrateRules(t, rules).value, configs);
    }
  }

  lemma {:induction false} MigrateRulesAgain(t: Tables, rules: seq<LegacyRule>)
    requires forall r :: r in rules ==> r.id in t.ruleSets
    ensures MigrateRules(t, rules) == Some(t)
  {
    if rules != [] {
      MigrateRulesAgain(t, rules[..|rules| - 1]);
    }
  }

  lemma {:induction false} MigrateConfigsAgain(t: Tables, configs: seq<OrgConfig>)
    requires Settled(t, configs)
    ensures MigrateConfigs(t, configs) == Some(t)
  {
    if configs != [] {
      var c := configs[|configs| - 1];
      MigrateConfigsAgain(t, configs[..|configs| - 1]);
      if !Skipped(c) {
        KeepingNothing(t.conditions, ItemRows(c));
        SkippingFailsExactly(t.conditions, ItemRows(c));
      }
    }
  }

  /** Running the whole backfill a second time adds nothing. */
  lemma UpgradeTwice(t: Tables, rules: seq<LegacyRule>, configs: seq<OrgConfig>)
    requires Valid(t) && Upgrade(t, rules, configs).Some?
    ensures Upgrade(Upgrade(t, rules, configs).value, rules, configs) == Upgrade(t, rules, configs)
  {
    hide Valid, Settled, MigrateRules, MigrateConfigs;
    UpgradeKeepsConstraints(t, rules, configs);
    MigrateRulesAgain(Upgrade(t, rules, configs).value, rules);
    MigrateConfigsAgain(Upgrade(t, rules, configs).value, configs);
  }

  // ---- When the backfill succeeds ----

  ghost predicate LegacyKeys(rules: seq<LegacyRule>) {
    forall i, j :: 0 <= i < j < |rules| ==> rules[i].id != rules[j].id && rules[i].name != rules[j].name
  }

  ghost predicate ConfigKeys(configs: seq<OrgConfig>) {
    forall i, j :: 0 <= i < j < |configs| ==>
      configs[i].id != configs[j].id && (configs[i].organization.Some? ==> configs[i].organization != configs[j].organization)
  }

  ghost predicate IsLegacy(rules: seq<LegacyRule>, id: Uuid) {
    exists r :: r in rules && r.id == id
  }

  /** The rule sets are those of the legacy rules. */
  ghost predicate LegacyDone(t: Tables, rules: seq<LegacyRule>) {
    && (forall id :: id in t.ruleSets <==> IsLegacy(rules, id))
    && (forall r :: r in rules ==> r.id in t.ruleSets && t.ruleSets[r.id] == LegacyRuleSet(r))
  }

  lemma {:induction false} LegacyRulesMigrate(rules: seq<LegacyRule>)
    requires LegacyKeys(rules)
    ensures MigrateRules(EMPTY, rules).Some? && Valid(MigrateRules(EMPTY, rules).value)
    ensures LegacyDone(MigrateRules(EMPTY, rules).value, rules)
  {
    hide Valid;
    if rules == [] {
      EmptyIsValid();
    } else {
      var init, r := rules[..|rules| - 1], rules[|rules| - 1];
      LegacyRulesMigrate(init);
      var t := MigrateRules(EMPTY, init).value;
      LegacyNext(t, init, r, rules);
    }
  }

  lemma EmptyIsValid()
    ensures Valid(EMPTY)
  {
  }

  lemma LegacyNext(t: Tables, init: seq<LegacyRule>, r: LegacyRule, rules: seq<LegacyRule>)
    requires Valid(t) && LegacyDone(t, init) && rules == init + [r] && LegacyKeys(rules)
    ensures MigrateRule(t, r).Some? && Valid(MigrateRule(t, r).value) && LegacyDone(MigrateRule(t, r).value, rules)
  {
    hide ClashFree, LegacyConditions, MigrateRule, Valid;
    MigrateRuleOutcome(t, r);
    forall x | x in init ensures x.id != r.id && x.name != r.name {
      var i :| 0 <= i < |init| && init[i] == x;
      assert rules[i] == x && rules[|init|] == r;
    }
    assert !IsLegacy(init, r.id);
    assert !NameTaken(t.ruleSets, r.name) by {
      forall id | id in t.ruleSets ensures t.ruleSets[id].name != r.name {
        var x :| x in init && x.id == id;
      }
    }
    assert forall x :: x in rules <==> x in init || x == r;
    var u := MigrateRule(t, r).value;
    forall id ensures id in u.ruleSets <==> IsLegacy(rules, id) {
      if id == r.id {
        assert r in rules;
      } else if IsLegacy(init, id) {
        var x :| x in init && x.id == id;
        assert x in rules;
      }
    }
  }

  /** The override name of a configuration that needs a new rule set is the name of a legacy rule. */
  ghost predicate NameCollides(rules: seq<LegacyRule>, c: OrgConfig) {
    && !Skipped(c) && !IsLegacy(rules, c.id)
    && exists r :: r in rules && r.name == OverrideName(c.organization.value)
  }

  /** Every row of the configuration's list fits its columns. */
  predicate ListFits(c: OrgConfig) {
    Skipped(c) || AllStorable(ItemRows(c))
  }

  /** Rule sets come from legacy rules or from the configurations so far. */
  ghost predicate ConfigsDone(t: Tables, rules: seq<LegacyRule>, configs: seq<OrgConfig>) {
    && (forall r :: r in rules ==> r.id in t.ruleSets && t.ruleSets[r.id] == LegacyRuleSet(r))
    && (forall id :: id in t.ruleSets && !IsLegacy(rules, id) ==>
          exists c :: c in configs && c.id == id && !Skipped(c) && t.ruleSets[id] == OverrideRuleSet(c))
  }

  lemma OverrideNameInjective(a: Uuid, b: Uuid)
    ensures OverrideName(a) == OverrideName(b) <==> a == b
  {
    var p := "OrgOverride-";
    assert OverrideName(a)[|p|..] == a && OverrideName(b)[|p|..] == b;
  }

  /** A new override meets no other of its scope, and its name only on a legacy rule. */
  lemma OverrideIsFree(t: Tables, rules: seq<LegacyRule>, init: seq<OrgConfig>, c: OrgConfig)
    requires ConfigsDone(t, rules, init) && !Skipped(c)
    requires forall x :: x in init && x.organization.Some? ==> x.organization != c.organization
    ensures !ScopeTaken(t.ruleSets, OverrideRuleSet(c))
    ensures NameTaken(t.ruleSets, OverrideName(c.organization.value)) <==>
      exists r :: r in rules && r.name == OverrideName(c.organization.value)
  {
    hide OverrideName, SameScope;
    forall id | id in t.ruleSets ensures !SameScope(t.ruleSets[id], OverrideRuleSet(c)) {
      NoOtherOverride(t, rules, init, c, id);
    }
    if id :| id in t.ruleSets && t.ruleSets[id].name == OverrideName(c.organization.value) {
      NoOtherOverride(t, rules, init, c, id);
    }
    if r :| r in rules && r.name == OverrideName(c.organization.value) {
      assert t.ruleSets[r.id].name == r.name;
    }
  }

  lemma ConfigNext(t: Tables, rules: seq<LegacyRule>, init: seq<OrgConfig>, c: OrgConfig, configs: seq<OrgConfig>)
    requires Valid(t) && ConfigsDone(t, rules, init) && configs == init + [c] && ConfigKeys(configs)
    ensures MigrateConfig(t, c).Some? <==> !NameCollides(rules, c) && ListFits(c)
    ensures MigrateConfig(t, c).Some? ==>
      Valid(MigrateConfig(t, c).value) && ConfigsDone(MigrateConfig(t, c).value, rules, configs)
  {
    hide ClashFree, InsertKeeping, InsertOrSkip, AllStorable, ItemRows, Valid, OverrideName, NameTaken, ScopeTaken, Conflicts;
    MigrateConfigOutcome(t, c);
    SkippingFailsExactly(t.conditions, ItemRows(c));
    forall x | x in init ensures x in configs && x.id != c.id && (x.organization.Some? ==> x.organization != c.organization) {
      var i :| 0 <= i < |init| && init[i] == x;
      assert configs[i] == x && configs[|init|] == c;
    }
    assert c in configs;
    if !Skipped(c) && c.id !in t.ruleSets {
      OverrideIsFree(t, rules, init, c);
    }
  }

  /** The rule set behind an id is a legacy rule's, or the override of another organisation. */
  lemma NoOtherOverride(t: Tables, rules: seq<LegacyRule>, init: seq<OrgConfig>, c: OrgConfig, id: Uuid)
    requires ConfigsDone(t, rules, init) && !Skipped(c) && id in t.ruleSets
    requires forall x :: x in init && x.organization.Some? ==> x.organization != c.organization
    ensures !SameScope(t.ruleSets[id], OverrideRuleSet(c))
    ensures t.ruleSets[id].name == OverrideName(c.organization.value) ==> exists r :: r in rules && r.name == t.ruleSets[id].name
  {
    hide OverrideName;
    if IsLegacy(rules, id) {
      var r :| r in rules && r.id == id;
      assert t.ruleSets[id] == LegacyRuleSet(r);
    } else {
      var x :| x in init && x.id == id && !Skipped(x) && t.ruleSets[id] == OverrideRuleSet(x);
      OverrideNameInjective(x.organization.value, c.organization.value);
    }
  }

  lemma {:induction false} ConfigsMigrate(t: Tables, rules: seq<LegacyRule>, configs: seq<OrgConfig>)
    requires Valid(t) && LegacyDone(t, rules) && ConfigKeys(configs)
    ensures MigrateConfigs(t, configs).Some? <==> forall c :: c in configs ==> !NameCollides(rules, c) && ListFits(c)
    ensures MigrateConfigs(t, configs).Some? ==>
      Valid(MigrateConfigs(t, configs).value) && ConfigsDone(MigrateConfigs(t, configs).value, rules, configs)
  {
    hide Valid, MigrateConfig, NameCollides, ListFits;
    if configs != [] {
      var init, c := configs[..|configs| - 1], configs[|configs| - 1];
      ConfigsMigrate(t, rules, init);
      assert forall x :: x in configs <==> x in init || x == c;
      assert configs == init + [c];
      if MigrateConfigs(t, init).Some? {
        ConfigNext(MigrateConfigs(t, init).value, rules, init, c, configs);
      }
    }
  }

  /** Into the new tables, the backfill succeeds exactly when no legacy rule bears the name that some organisation's
      override is given and every row of every list fits its columns; the scope, type and position constraints never
      stop it, and the legacy columns are narrow enough for their rows always to fit. */
  lemma UpgradeSucceedsExactly(rules: seq<LegacyRule>, configs: seq<OrgConfig>)
    requires LegacyKeys(rules) && ConfigKeys(configs)
    ensures Upgrade(EMPTY, rules, configs).Some? <==> forall c :: c in configs ==> !NameCollides(rules, c) && ListFits(c)
  {
    hide Valid, MigrateRules, MigrateConfigs, NameCollides, ListFits;
    LegacyRulesMigrate(rules);
    ConfigsMigrate(MigrateRules(EMPTY, rules).value, rules, configs);
  }

  /** An item as the API accepts it: AND, OR or no operator, a position from 1, a value that is not negative. */
  predicate ApiItem(x: Item) {
    && (x.operator == None || x.operator == Some("AND") || x.operator == Some("OR"))
    && x.position.Some? && x.position.value.truthy && 1 <= x.position.value.value < 0x8000_0000 && x.value.Some? && x.value.value >= 0.0
  }

  /** The API bounds no value from above; its items fit exactly below ten thousand million. */
  lemma ApiItemFitsExactly(id: Uuid, x: Item)
    requires ApiItem(x)
    ensures Storable(ItemRow(id, x)) <==> x.value.value < 9_999_999_999.995
  {
  }

  /** In general: the position is in INTEGER range, the operator has no text beyond eight characters, and the value rounds
      to less than ten thousand million on either side. */
  lemma ItemFitsExactly(id: Uuid, x: Item)
    ensures Storable(ItemRow(id, x)) <==>
      && (x.position.Some? && x.position.value.truthy ==> -2_147_483_648 <= x.position.value.value <= 2_147_483_647)
      && (x.operator.Some? && |x.operator.value| > 8 ==> forall c :: c in x.operator.value[8..] ==> c == ' ')
      && (x.value.Some? ==> -9_999_999_999.995 < x.value.value < 9_999_999_999.995)
  {
  }

  /** What a list item's row says of the item. */
  ghost predicate Means(x: Item, c: Condition) {
    && (c.conditionType == TotalOverdueAmount <==> x.conditionType == Some("TOTAL_OVERDUE_AMOUNT"))
    && (c.conditionType == CreditUtilization <==> x.conditionType == Some("CREDIT_UTILIZATION"))
    && (c.conditionType == CreditNotClearedAfterDueDate <==> x.conditionType == Some("CREDIT_NOT_CLEARED_AFTER_DUE_DATE"))
    && c.position == (if x.position.Some? && x.position.value.truthy then x.position.value.value else 1)
    && (x.operator == None || x.operator == Some("") ==> c.connector == "NONE")
    && (x.operator.Some? && 1 <= |x.operator.value| <= 8 ==> c.connector == x.operator.value)
    && (x.operator.Some? && |x.operator.value| > 8 ==> c.connector <= x.operator.value)
    && (x.value.None? ==> c.threshold == 0)
    && (x.value.Some? ==> NearestAway(c.threshold, x.value.value * 100.0))
  }

  /** The nearest integer, and of two equally near the one farther from zero. */
  predicate NearestAway(n: int, x: real) {
    && -0.5 <= n as real - x <= 0.5
    && (n as real - x == 0.5 ==> x >= 0.0) && (n as real - x == -0.5 ==> x < 0.0)
  }

  lemma ItemRowMeans(id: Uuid, x: Item)
    ensures Means(x, ItemRow(id, x)) && ItemRow(id, x).ruleSet == id
  {
  }

  /** A single over-wide value in one organisation's list aborts the whole migration. */
  lemma OverwideThresholdAborts(rules: seq<LegacyRule>, configs: seq<OrgConfig>, c: OrgConfig, x: Item)
    requires LegacyKeys(rules) && ConfigKeys(configs) && c in configs && !Skipped(c)
    requires c.triggers.Some? && x in c.triggers.value && x.value == Some(10_000_000_000.00)
    ensures Upgrade(EMPTY, rules, configs).None?
  {
    hide Upgrade, LegacyKeys, ConfigKeys, NameCollides;
    UpgradeSucceedsExactly(rules, configs);
    var items := c.triggers.value;
    var i :| 0 <= i < |items| && items[i] == x;
    assert ItemRows(c)[i] == ItemRow(c.id, x) && !Storable(ItemRow(c.id, x));
  }

  // ---- The conditions of one rule set ----

  function RowsOf(rows: seq<Condition>, id: Uuid): seq<Condition> {
    if rows == [] then []
    else RowsOf(rows[..|rows| - 1], id) + (if rows[|rows| - 1].ruleSet == id then [rows[|rows| - 1]] else [])
  }

  lemma {:induction false} KeepingElsewhere(rows: seq<Condition>, cs: seq<Condition>, id: Uuid)
    requires forall c :: c in cs ==> c.ruleSet != id
    ensures RowsOf(InsertKeeping(rows, cs), id) == RowsOf(rows, id)
  {
    if cs != [] {
      var u := InsertKeeping(rows, cs[..|cs| - 1]);
      KeepingElsewhere(rows, cs[..|cs| - 1], id);
      assert (u + [cs[|cs| - 1]])[..|u|] == u;
    }
  }

  lemma {:induction false} RowsOfAbsent(rows: seq<Condition>, id: Uuid)
    requires forall r :: r in rows ==> r.ruleSet != id
    ensures RowsOf(rows, id) == []
  {
    if rows != [] {
      RowsOfAbsent(rows[..|rows| - 1], id);
    }
  }

  lemma RowsOfSnoc(rows: seq<Condition>, c: Condition, id: Uuid)
    ensures RowsOf(rows + [c], id) == RowsOf(rows, id) + (if c.ruleSet == id then [c] else [])
  {
    assert (rows + [c])[..|rows|] == rows;
  }

  lemma AppendTwice(a: seq<Condition>, b: seq<Condition>, c: Condition)
    ensures a + (b + [c]) == a + b + [c]
  {
  }

  lemma {:induction false} RowsOfAppended(rows: seq<Condition>, cs: seq<Condition>, id: Uuid)
    requires forall c :: c in cs ==> c.ruleSet == id
    ensures RowsOf(rows + cs, id) == RowsOf(rows, id) + cs
  {
    hide RowsOf;
    if cs == [] {
      assert rows + cs == rows;
    } else {
      var init, c := cs[..|cs| - 1], cs[|cs| - 1];
      assert cs == init + [c];
      RowsOfAppended(rows, init, id);
      AppendTwice(rows, init, c);
      AppendTwice(RowsOf(rows, id), init, c);
      RowsOfSnoc(rows + init, c, id);
    }
  }

  lemma {:induction false} SurvivorsBelong(cs: seq<Condition>)
    ensures forall c :: c in Survivors(cs) ==> c in cs
  {
    forall c | c in Survivors(cs) ensures c in cs {
      SurvivorsAre(cs, c);
    }
  }

  lemma MigrateConfigRows(t: Tables, c: OrgConfig, id: Uuid)
    requires Valid(t) && MigrateConfig(t, c).Some?
    ensures var u := MigrateConfig(t, c).value;
      && (c.id != id ==> RowsOf(u.conditions, id) == RowsOf(t.conditions, id))
      && (c.id == id && !Skipped(c) && id !in t.ruleSets ==> RowsOf(u.conditions, id) == Survivors(ItemRows(c)))
  {
    hide ClashFree, ItemRow, Survivors, RowsOf, InsertKeeping, InsertOrSkip, AllStorable;
    ItemRowsBelong(c);
    if !Skipped(c) {
      SkippingFailsExactly(t.conditions, ItemRows(c));
      if c.id != id {
        KeepingElsewhere(t.conditions, ItemRows(c), id);
      } else if id !in t.ruleSets {
        KeepingLeavesSurvivors(t.conditions, ItemRows(c), id);
        SurvivorsBelong(ItemRows(c));
        RowsOfAbsent(t.conditions, id);
        RowsOfAppended(t.conditions, Survivors(ItemRows(c)), id);
      }
    }
  }

  lemma {:induction false} MigrateConfigsRows(t: Tables, configs: seq<OrgConfig>, k: nat)
    requires Valid(t) && MigrateConfigs(t, configs).Some? && ConfigKeys(configs)
    requires k < |configs| && !Skipped(configs[k]) && configs[k].id !in t.ruleSets
    ensures RowsOf(MigrateConfigs(t, configs).value.conditions, configs[k].id) == Survivors(ItemRows(configs[k]))
  {
    hide Valid, MigrateConfig, ItemRows, Survivors, RowsOf;
    var init, c := configs[..|configs| - 1], configs[|configs| - 1];
    var u := MigrateConfigs(t, init).value;
    MigrateConfigsValid(t, init);
    MigrateConfigRows(u, c, configs[k].id);
    if k < |init| {
      MigrateConfigsRows(t, init, k);
    } else {
      OtherIdsUntouched(t, init, c.id);
    }
  }

  lemma {:induction false} OtherIdsUntouched(t: Tables, configs: seq<OrgConfig>, id: Uuid)
    requires MigrateConfigs(t, configs).Some? && id !in t.ruleSets && forall c :: c in configs ==> c.id != id
    ensures id !in MigrateConfigs(t, configs).value.ruleSets
  {
    if configs != [] {
      OtherIdsUntouched(t, configs[..|configs| - 1], id);
    }
  }

  /** After the backfill, the rule set of an organisation holds exactly the survivors of its own list, in order. */
  lemma OverrideHoldsSurvivors(rules: seq<LegacyRule>, configs: seq<OrgConfig>, k: nat)
    requires LegacyKeys(rules) && ConfigKeys(configs) && Upgrade(EMPTY, rules, configs).Some?
    requires k < |configs| && !Skipped(configs[k]) && !IsLegacy(rules, configs[k].id)
    ensures var rows := RowsOf(Upgrade(EMPTY, rules, configs).value.conditions, configs[k].id);
      rows == Survivors(ItemRows(configs[k])) && |rows| <= 4
  {
    hide Valid, MigrateConfigs, MigrateRules, ItemRows, Survivors, RowsOf, ConfigKeys;
    LegacyRulesMigrate(rules);
    MigrateConfigsRows(MigrateRules(EMPTY, rules).value, configs, k);
    var cs := ItemRows(configs[k]);
    SurvivorsClashFree(cs);
    SurvivorsBelong(cs);
    ItemRowsBelong(configs[k]);
    AtMostFour(Survivors(cs), configs[k].id);
  }

  /** An organisation that is migrated has a rule set of its own, with its switches, and every condition in it is what one
      item of its list says. */
  lemma OverrideIsItsConfig(rules: seq<LegacyRule>, configs: seq<OrgConfig>, k: nat)
    requires LegacyKeys(rules) && ConfigKeys(configs) && Upgrade(EMPTY, rules, configs).Some?
    requires k < |configs| && !IsLegacy(rules, configs[k].id)
    requires configs[k].organization.Some? && configs[k].organization.value != ""
    ensures var t, c := Upgrade(EMPTY, rules, configs).value, configs[k];
      && c.id in t.ruleSets
      && t.ruleSets[c.id] == RuleSet("OrgOverride-" + c.organization.value, Org(c.organization.value), "CREDIT_LIMIT", "ACTIVE",
                                     c.autoSuspension, c.pauseBookings, c.restrictLogin, c.notifyFinance, c.notifyManager)
      && (forall row :: row in RowsOf(t.conditions, c.id) ==>
            row.ruleSet == c.id && c.triggers.Some? && exists x :: x in c.triggers.value && Means(x, row))
  {
    hide Valid, MigrateConfigs, MigrateRules, ItemRow, Survivors, RowsOf, Means, IsLegacy;
    var t, c := Upgrade(EMPTY, rules, configs).value, configs[k];
    LegacyRulesMigrate(rules);
    ConfigsMigrate(MigrateRules(EMPTY, rules).value, rules, configs);
    UpgradeKeepsConstraints(EMPTY, rules, configs) by { EmptyIsValid(); }
    assert c in configs;
    var d :| d in configs && d.id == c.id && !Skipped(d) && t.ruleSets[c.id] == OverrideRuleSet(d);
    var j :| 0 <= j < |configs| && configs[j] == d;
    assert j == k;
    OverrideHoldsSurvivors(rules, configs, k);
    SurvivorsBelong(ItemRows(c));
    forall row | row in RowsOf(t.conditions, c.id)
      ensures row.ruleSet == c.id && c.triggers.Some? && exists x :: x in c.triggers.value && Means(x, row)
    {
      var items := c.triggers.value;
      var i :| 0 <= i < |items| && ItemRows(c)[i] == row;
      ItemRowMeans(c.id, items[i]);
      assert items[i] in items;
    }
  }

  /** A configuration without an organisation leaves nothing behind. */
  lemma NoOrganisationNoRuleSet(rules: seq<LegacyRule>, configs: seq<OrgConfig>, k: nat)
    requires LegacyKeys(rules) && ConfigKeys(configs) && Upgrade(EMPTY, rules, configs).Some?
    requires k < |configs| && !IsLegacy(rules, configs[k].id)
    requires configs[k].organization == None || configs[k].organization == Some("")
    ensures configs[k].id !in Upgrade(EMPTY, rules, configs).value.ruleSets
  {
    hide Valid, MigrateConfigs, MigrateRules;
    var t := Upgrade(EMPTY, rules, configs).value;
    LegacyRulesMigrate(rules);
    ConfigsMigrate(MigrateRules(EMPTY, rules).value, rules, configs);
    forall d | d in configs && d.id == configs[k].id ensures d == configs[k] {
      var j :| 0 <= j < |configs| && configs[j] == d;
    }
  }

  // ---- What a legacy rule becomes ----

  lemma RowsElsewhere(rows: seq<Condition>, cs: seq<Condition>, id: Uuid)
    requires forall c :: c in cs ==> c.ruleSet != id
    ensures RowsOf(rows + cs, id) == RowsOf(rows, id)
  {
    hide RowsOf;
    if cs == [] {
      assert rows + cs == rows;
    } else {
      var init, c := cs[..|cs| - 1], cs[|cs| - 1];
      assert cs == init + [c];
      RowsElsewhere(rows, init, id);
      AppendTwice(rows, init, c);
      RowsOfSnoc(rows + init, c, id);
    }
  }

  lemma {:induction false} RulesRows(rules: seq<LegacyRule>, k: nat)
    requires LegacyKeys(rules) && k < |rules| && MigrateRules(EMPTY, rules).Some?
    ensures RowsOf(MigrateRules(EMPTY, rules).value.conditions, rules[k].id) == LegacyConditions(rules[k])
  {
    hide Valid, RowsOf, LegacyConditions, MigrateRule, NameTaken, IsLegacy;
    var init, r := rules[..|rules| - 1], rules[|rules| - 1];
    assert rules == init + [r];
    LegacyRulesMigrate(init);
    var t := MigrateRules(EMPTY, init).value;
    LegacyNext(t, init, r, rules);
    MigrateRuleOutcome(t, r);
    LegacyConditionsClashFree(r);
    assert r.id !in t.ruleSets by { NotYet(init, r, rules); }
    if k < |init| {
      RulesRows(init, k);
      RowsElsewhere(t.conditions, LegacyConditions(r), rules[k].id);
    } else {
      ConditionsRefer(t);
      RowsOfAbsent(t.conditions, r.id);
      RowsOfAppended(t.conditions, LegacyConditions(r), r.id);
    }
  }

  lemma NotYet(init: seq<LegacyRule>, r: LegacyRule, rules: seq<LegacyRule>)
    requires rules == init + [r] && LegacyKeys(rules)
    ensures !IsLegacy(init, r.id)
  {
    forall x | x in init ensures x.id != r.id {
      var i :| 0 <= i < |init| && init[i] == x;
      assert rules[i] == x && rules[|init|] == r;
    }
  }

  lemma ConditionsRefer(t: Tables)
    requires Valid(t)
    ensures forall c :: c in t.conditions ==> c.ruleSet in t.ruleSets
  {
  }

  lemma {:induction false} ConfigsLeaveOthers(t: Tables, configs: seq<OrgConfig>, id: Uuid)
    requires Valid(t) && MigrateConfigs(t, configs).Some? && forall c :: c in configs ==> c.id != id
    ensures RowsOf(MigrateConfigs(t, configs).value.conditions, id) == RowsOf(t.conditions, id)
  {
    hide Valid, RowsOf, MigrateConfig;
    if configs != [] {
      var init, c := configs[..|configs| - 1], configs[|configs| - 1];
      ConfigsLeaveOthers(t, init, id);
      MigrateConfigsValid(t, init);
      MigrateConfigRows(MigrateConfigs(t, init).value, c, id);
    }
  }

  /** Thresholds of the rows of one type, in order. */
  function ThresholdsOf(rows: seq<Condition>, conditionType: ConditionType): seq<int> {
    if rows == [] then []
    else (if rows[0].conditionType == conditionType then [rows[0].threshold] else []) + ThresholdsOf(rows[1..], conditionType)
  }

  lemma LegacyConditionsAre(r: LegacyRule)
    ensures var rows := LegacyConditions(r);
      var days := if r.overdueDays.Some? then 100 * r.overdueDays.value else 0;
      && ThresholdsOf(rows, InvoiceOverdueDays) ==
           (if r.trigger == "OVERDUE_DAYS" || r.trigger == "OVERDUE_DAYS_AND_AMOUNT" then [days] else [])
      && ThresholdsOf(rows, TotalOverdueAmount) ==
           (if r.trigger == "OVERDUE_AMOUNT" || r.trigger == "OVERDUE_DAYS_AND_AMOUNT"
            then [if r.overdueAmount.Some? then r.overdueAmount.value else 0] else [])
      && ThresholdsOf(rows, CreditUtilization) ==
           (if r.trigger == "CREDIT_UTILISATION_PERCENT" then [if r.utilisation.Some? then r.utilisation.value else 0] else [])
      && ThresholdsOf(rows, CreditNotClearedAfterDueDate) ==
           (if r.trigger == "CREDIT_NOT_CLEARED_AFTER_CLEARING_DATE" then [days] else [])
      && (forall i :: 0 <= i < |rows| ==>
            && rows[i].ruleSet == r.id && rows[i].position == i + 1
            && rows[i].connector == (if i == 0 then "NONE" else "AND")
            && (i > 0 ==> rows[i].conditionType == TotalOverdueAmount))
  {
    var rows := LegacyConditions(r);
    if |rows| == 2 {
      assert rows[1..] == [rows[1]] && rows[1..][1..] == [];
    } else if |rows| == 1 {
      assert rows[1..] == [];
    }
  }

  /** After the backfill, a legacy rule whose id no organisation shares is a global rule set with its name, status and
      finance notice, and has one condition for each threshold its trigger names: in hundredths, 0 where the rule had
      none, counted from position 1, the amount after the days and joined to them by AND. */
  lemma LegacyRuleBecomes(rules: seq<LegacyRule>, configs: seq<OrgConfig>, k: nat)
    requires LegacyKeys(rules) && ConfigKeys(configs) && Upgrade(EMPTY, rules, configs).Some?
    requires k < |rules| && forall c :: c in configs ==> c.id != rules[k].id
    ensures var t, r := Upgrade(EMPTY, rules, configs).value, rules[k];
      var rows := RowsOf(t.conditions, r.id);
      var days := if r.overdueDays.Some? then 100 * r.overdueDays.value else 0;
      && r.id in t.ruleSets
      && t.ruleSets[r.id] == RuleSet(r.name, Global, "CREDIT_LIMIT", r.status, true, false, true, r.notifyFinance, false)
      && ThresholdsOf(rows, InvoiceOverdueDays) ==
           (if r.trigger == "OVERDUE_DAYS" || r.trigger == "OVERDUE_DAYS_AND_AMOUNT" then [days] else [])
      && ThresholdsOf(rows, TotalOverdueAmount) ==
           (if r.trigger == "OVERDUE_AMOUNT" || r.trigger == "OVERDUE_DAYS_AND_AMOUNT"
            then [if r.overdueAmount.Some? then r.overdueAmount.value else 0] else [])
      && ThresholdsOf(rows, CreditUtilization) ==
           (if r.trigger == "CREDIT_UTILISATION_PERCENT" then [if r.utilisation.Some? then r.utilisation.value else 0] else [])
      && ThresholdsOf(rows, CreditNotClearedAfterDueDate) ==
           (if r.trigger == "CREDIT_NOT_CLEARED_AFTER_CLEARING_DATE" then [days] else [])
      && (forall i :: 0 <= i < |rows| ==>
            && rows[i].ruleSet == r.id && rows[i].position == i + 1
            && rows[i].connector == (if i == 0 then "NONE" else "AND")
            && (i > 0 ==> rows[i].conditionType == TotalOverdueAmount))
  {
    hide Valid, MigrateConfigs, MigrateRules, RowsOf, LegacyConditions, ThresholdsOf, Settled;
    var r := rules[k];
    assert r in rules;
    LegacyRulesMigrate(rules);
    RulesRows(rules, k);
    ConfigsLeaveOthers(MigrateRules(EMPTY, rules).value, configs, r.id);
    ConfigsMigrate(MigrateRules(EMPTY, rules).value, rules, configs);
    LegacyConditionsAre(r);
  }

  // ---- Activity rows ----

  /** The foreign key of rule_id to suspension_rule. */
  ghost predicate RefersToLegacy(rows: map<Uuid, Activity>, rules: seq<LegacyRule>) {
    forall i :: i in rows && rows[i].ruleId.Some? ==> IsLegacy(rules, rows[i].ruleId.value)
  }

  /** The foreign key of rule_set_id to suspension_rule_sets. */
  ghost predicate RefersToRuleSets(rows: map<Uuid, Activity>, t: Tables) {
    forall i :: i in rows && rows[i].ruleSetId.Some? ==> rows[i].ruleSetId.value in t.ruleSets
  }

  /** After 0077 and then 0078 every activity row with a rule has a valid rule set, its own rule's unless it had one
      already; 0079 then changes nothing. */
  lemma ActivitiesLinked(t: Tables, rules: seq<LegacyRule>, configs: seq<OrgConfig>, rows: map<Uuid, Activity>)
    requires Valid(t) && Upgrade(t, rules, configs).Some?
    requires RefersToLegacy(rows, rules) && RefersToRuleSets(rows, t)
    ensures var u := Upgrade(t, rules, configs).value;
      var linked := Bridge(u, rows);
      && linked.Keys == rows.Keys && RefersToRuleSets(linked, u)
      && (forall i :: i in rows && rows[i].ruleId.Some? ==> linked[i].ruleSetId.Some?)
      && (forall i :: i in rows && rows[i].ruleSetId.Some? ==> linked[i] == rows[i])
      && (forall i :: i in rows && rows[i].ruleSetId.None? ==> linked[i] == rows[i].(ruleSetId := rows[i].ruleId))
      && Bridge(u, linked) == linked
  {
    hide Valid, Upgrade, Settled;
    UpgradeKeepsConstraints(t, rules, configs);
    var u := Upgrade(t, rules, configs).value;
    forall i | i in rows && rows[i].ruleId.Some? ensures rows[i].ruleId.value in u.ruleSets {
      var r :| r in rules && r.id == rows[i].ruleId.value;
    }
  }

  /** Whatever the rows refer to, the update never points one at a rule set that is not there: it links exactly the rows
      without a rule set whose rule is one. */
  lemma BridgeLinksExactly(t: Tables, rows: map<Uuid, Activity>)
    requires RefersToRuleSets(rows, t)
    ensures RefersToRuleSets(Bridge(t, rows), t) && Bridge(t, rows).Keys == rows.Keys
    ensures forall i :: i in rows ==> Bridge(t, rows)[i].ruleId == rows[i].ruleId
    ensures forall i :: i in rows ==> (Bridge(t, rows)[i].ruleSetId != rows[i].ruleSetId <==>
      rows[i].ruleSetId == None && rows[i].ruleId.Some? && rows[i].ruleId.value in t.ruleSets)
  {
  }

  // ---- The migration as it runs ----

  class Migration {
    var ruleSets: map<Uuid, RuleSet>
    var conditions: seq<Condition>

    function State(): Tables
      reads this
    {
      Tables(ruleSets, conditions)
    }

    constructor (t: Tables)
      ensures State() == t
    {
      ruleSets, conditions := t.ruleSets, t.conditions;
    }

    method InsertSet(id: Uuid, row: RuleSet) returns (ok: bool)
      requires id !in ruleSets
      modifies this`ruleSets
      ensures ok <==> InsertRuleSet(old(State()), id, row).Some?
      ensures if ok then State() == InsertRuleSet(old(State()), id, row).value else State() == old(State())
    {
      if NameTaken(ruleSets, row.name) || ScopeTaken(ruleSets, row) {
        return false;
      }
      ruleSets := ruleSets[id := row];
      return true;
    }

    /** Plain inserts: the first row that does not fit or conflicts fails. */
    method InsertRows(pending: seq<Condition>) returns (ok: bool)
      modifies this`conditions
      ensures ok <==> InsertAll(old(conditions), pending).Some?
      ensures ok ==> conditions == InsertAll(old(conditions), pending).value
    {
      hide Conflicts, Storable;
      ghost var rows := conditions;
      for j := 0 to |pending|
        invariant InsertAll(rows, pending[..j]) == Some(conditions)
      {
        assert pending[..j + 1][..j] == pending[..j];
        if !Storable(pending[j]) || Conflicts(conditions, pending[j]) {
          FailedInserts(rows, pending, j + 1);
          return false;
        }
        conditions := conditions + [pending[j]];
      }
      assert pending[..|pending|] == pending;
      ok := true;
    }

    method BackfillLegacy(rules: seq<LegacyRule>) returns (ok: bool)
      modifies this
      ensures ok <==> MigrateRules(old(State()), rules).Some?
      ensures ok ==> State() == MigrateRules(old(State()), rules).value
    {
      hide LegacyConditions, Conflicts;
      ghost var start := State();
      var k := 0;
      while k < |rules|
        invariant 0 <= k <= |rules|
        invariant MigrateRules(start, rules[..k]) == Some(State())
      {
        var r := rules[k];
        assert rules[..k + 1][..k] == rules[..k];
        if r.id !in ruleSets {
          ok := InsertSet(r.id, LegacyRuleSet(r));
          if !ok {
            FailedRules(start, rules, k + 1);
            return;
          }
          ok := InsertRows(LegacyConditions(r));
          if !ok {
            FailedRules(start, rules, k + 1);
            return;
          }
        }
        k := k + 1;
      }
      assert rules[..k] == rules;
      ok := true;
    }

    /** ON CONFLICT DO NOTHING: a conflicting row is dropped, one that does not fit fails. */
    method InsertConditions(pending: seq<Condition>) returns (ok: bool)
      modifies this`conditions
      ensures ok <==> InsertOrSkip(old(conditions), pending).Some?
      ensures ok ==> conditions == InsertOrSkip(old(conditions), pending).value
    {
      hide Conflicts, Storable;
      ghost var rows := conditions;
      for j := 0 to |pending|
        invariant InsertOrSkip(rows, pending[..j]) == Some(conditions)
      {
        assert pending[..j + 1][..j] == pending[..j];
        if !Storable(pending[j]) {
          SkippingFailsExactly(rows, pending);
          return false;
        }
        if !Conflicts(conditions, pending[j]) {
          conditions := conditions + [pending[j]];
        }
      }
      assert pending[..|pending|] == pending;
      ok := true;
    }

    method BackfillConfigs(configs: seq<OrgConfig>) returns (ok: bool)
      modifies this
      ensures ok <==> MigrateConfigs(old(State()), configs).Some?
      ensures ok ==> State() == MigrateConfigs(old(State()), configs).value
    {
      hide Conflicts, OverrideName, ItemRows;
      ghost var start := State();
      var k := 0;
      while k < |configs|
        invariant 0 <= k <= |configs|
        invariant MigrateConfigs(start, configs[..k]) == Some(State())
      {
        var c := configs[k];
        assert configs[..k + 1][..k] == configs[..k];
        if !Skipped(c) {
          if c.id !in ruleSets {
            ok := InsertSet(c.id, OverrideRuleSet(c));
            if !ok {
              FailedConfigs(start, configs, k + 1);
              return;
            }
          }
          ok := InsertConditions(ItemRows(c));
          if !ok {
            FailedConfigs(start, configs, k + 1);
            return;
          }
        }
        k := k + 1;
      }
      assert configs[..k] == configs;
      ok := true;
    }

    /** upgrade(): both loops, or none of their effects. */
    method RunUpgrade(rules: seq<LegacyRule>, configs: seq<OrgConfig>) returns (ok: bool)
      modifies this
      ensures ok <==> Upgrade(old(State()), rules, configs).Some?
      ensures State() == if ok then Upgrade(old(State()), rules, configs).value else old(State())
    {
      hide MigrateRules, MigrateConfigs;
      var saved := State();
      ok := BackfillLegacy(rules);
      if ok {
        ok := BackfillConfigs(configs);
      }
      if !ok {
        ruleSets, conditions := saved.ruleSets, saved.conditions;
      }
    }
  }

  lemma {:induction false} FailedInserts(rows: seq<Condition>, cs: seq<Condition>, k: nat)
    requires k <= |cs| && InsertAll(rows, cs[..k]).None?
    ensures InsertAll(rows, cs).None?
  {
    if k == |cs| {
      assert cs[..k] == cs;
    } else {
      assert cs[..|cs| - 1][..k] == cs[..k];
      FailedInserts(rows, cs[..|cs| - 1], k);
    }
  }

  lemma {:induction false} FailedRules(t: Tables, rules: seq<LegacyRule>, k: nat)
    requires k <= |rules| && MigrateRules(t, rules[..k]).None?
    ensures MigrateRules(t, rules).None?
  {
    hide MigrateRule;
    if k == |rules| {
      assert rules[..k] == rules;
    } else {
      assert rules[..|rules| - 1][..k] == rules[..k];
      FailedRules(t, rules[..|rules| - 1], k);
    }
  }

  lemma {:induction false} FailedConfigs(t: Tables, configs: seq<OrgConfig>, k: nat)
    requires k <= |configs| && MigrateConfigs(t, configs[..k]).None?
    ensures MigrateConfigs(t, configs).None?
  {
    hide MigrateConfig;
    if k == |configs| {
      assert configs[..k] == configs;
    } else {
      assert configs[..|configs| - 1][..k] == configs[..k];
      FailedConfigs(t, configs[..|configs| - 1], k);
    }
  }
}
