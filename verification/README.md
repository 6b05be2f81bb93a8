# Seed scripts and data migrations: a verified model

This project models the parts of the delivery platform's repository that change rows step by step and carry
their own correctness argument: the script that assigns a driver a demo route for the day and clears it again, the
migration that turns legacy suspension rules into rule sets, the allocation of driver codes and invoice numbers, the
simulated pickup drive with the driver service it calls, the weekday arithmetic behind shift windows, the money and
calendar arithmetic of the billing seed, and the helpers that pick a customer or a default row.

Code that updates state is a class (`Session`, `CodeTable`, `Migration`, `DriveSession`, `OrgTables`) or a method with
loops, each proved to take the state where a specification function says. The properties are lemmas about those
functions, for all inputs or over every run.

| module | subject |
|---|---|
| AssignIds | printed ids and codes, and the LIKE pattern of the purge |
| AssignStore | tables, constraints, cascades; each step of the assign script as a function |
| AssignRuns, AssignActive | what every run of seeds and clears keeps |
| AssignFrame, AssignCounts, AssignContents, AssignReseed | what one seed leaves alone and undoes; counters; what the rows say; seeding twice |
| AssignSession | the script statement by statement, proved against AssignStore |
| SuspensionBackfill | migrations 0077, 0078 and 0079 |
| CodeAllocator, Numerals | migration 0021 and the script's codes; printing and parsing numerals |
| PickupDrive, PickupHistory, Downsampling | the drive, its pings and stops; the history read back from it; path sampling |
| Weekdays | weekday steppers and the shift window |
| Billing, Rounding, Calendar | VAT, part payments, statement months |
| CustomerResolution, DefaultRows | the search for the portal user; default pickup and payment method |
| Arithmetic, Outcomes | helpers |

## What the proofs found

Where the code and its comments disagree, the model follows the code.

- `total_stops` counts the RETURN stop twice when the assign script inserts it (`scripts/driver_route_assign.py:693` and
  `scripts/fe_demo_lib.py:591`): `AssignCounts.RunCounted` gives the relation that every run keeps.
- A second seed of the same slot forgets that the script created the plan, so the later clear leaves the plan behind
  (`AssignReseed.ReseedOrphansPlan`); `AssignFrame.ClearDropsPlanExactly` says when a clear deletes a plan. The safety half
  holds for each plan on its own: one that no manifest claims is never deleted (`AssignActive.RunDeletesOwnPlansOnly`).
- A day is printed as `%y%m%d`, so slots a century apart share their codes (`AssignIds.SlotsMeetAcrossCenturies`).
- The comments of migration 0021 promise that codes continue with DR-1000. `lpad` cuts 1000 down to 100, so the default
  matches its documentation exactly below 1000 (`CodeAllocator.DefaultMatchesDocumentation`), fails exactly when the cut
  code is present (`DefaultFailsExactly`), and once all three-digit codes from 100 are taken never succeeds again
  (`DefaultsExhausted`). The script's own codes are always new, but a deleted one is issued
  again, and a rolled-back script insert leaves its `setval` behind (`BurnedScriptRewinds`).
- The 0021 initialisation raises exactly when the largest suffix present is 0 (`CodeAllocator.InitialiseAhead`).
- Migration 0077 fails exactly when a legacy rule already bears the name `OrgOverride-<organization>` of an organization
  to migrate, or a row of some organization's list does not fit its columns (`SuspensionBackfill.UpgradeSucceedsExactly`).
  The API bounds no threshold from above, and one of ten thousand million aborts the migration
  (`ApiItemFitsExactly`, `OverwideThresholdAborts`). Rows from the legacy table always fit.
- The route history reads each leg's pings from a window closed at both ends, although the next leg starts pinging at the
  very second of the arrival, and then thins each window to a limit of 100, which leaves 101. `total_points` is one too many
  for every leg but the last exactly when no window holds more than 101 pings, as is so for up to 100 pings a leg;
  with longer legs it is smaller (`PickupHistory.HistoryCountsBoundariesTwice`, `ShortLegsCountTwice`, `LongLegsAreThinned`).
- A drive aborts on a stop whose order has no packages or whose road polyline has no readable point; earlier stops stay
  completed (`PickupDrive.FailedRunKeepsEarlierRows`).
- The preferred customer can be passed over for another user although it qualifies. It is always returned exactly when no
  earlier row spells its email in another case or it is the only active B2B user (`CustomerResolution.PreferredReturnedExactly`,
  `TwoSpellings`); the unique constraint compares exact spellings.

## Model

| member | source | states |
|---|---|---|
| AssignIds.PrintedIdInjective | scripts/driver_route_assign.py:293-310 | order ids, labels and tracking ids are one-to-one in scenario, printed day, sequence number (any number of digits) and suffix |
| AssignIds.PrintedIdReads | scripts/driver_route_assign.py:293-310 | every printed id reads back as its scenario's tag, its day as yymmdd, its sequence number and its suffix |
| AssignIds.RouteCodeDecodes | scripts/driver_route_assign.py:289-290 | two slots share a route code iff they are the same scenario on the same printed day |
| AssignIds.RouteCodeReads | scripts/driver_route_assign.py:289-290 | every route code reads back as its scenario's tag and its day as yymmdd |
| AssignIds.PurgePatternIsPrefix | scripts/driver_route_assign.py:541-542 | the LIKE pattern of the purge matches exactly the ids starting with the slot's prefix |
| AssignIds.PurgeMatchesOwnIdsOnly | scripts/driver_route_assign.py:289-310 | the purge of one slot matches an id printed for another iff both print alike, so ATP never purges ATPR |
| AssignIds.SlotsMeetAcrossCenturies | scripts/driver_route_assign.py:290-294 | slots print alike iff scenario, month, day and year modulo 100 agree |
| AssignRuns.PurgeRemovesSlotOnly | scripts/driver_route_assign.py:524-543 | the purge with its cascades and SET NULLs removes exactly the slot's rows, all others unchanged |
| AssignRuns.DroppedPlanIsIdle | scripts/driver_route_assign.py:880-886 | a clear deletes only a plan recorded as script-created that no route uses, so the deletion cascades to nothing |
| AssignRuns.RunValid | app/modules/planning/models.py:41-187 | foreign keys and unique constraints hold after every run of seeds and clears |
| AssignRuns.RunAtHome | scripts/driver_route_assign.py:704-787 | a slot whose orders are reached only from its own route stays so over every run of any slots |
| AssignActive.ActiveSeedIsTheOne | scripts/driver_route_assign.py:671-702 | after a demoting ACTIVE seed the inserted route is the only ACTIVE one of the driver, depot and day |
| AssignActive.SeedKeepsOneActiveExactly | scripts/driver_route_assign.py:651-702 | a seed keeps "at most one ACTIVE" iff it is not ACTIVE, or demotes, or meets no other ACTIVE route |
| AssignActive.RunKeepsOneActive | scripts/driver_route_assign.py:501-521 | over every run of demoting seeds and clears each driver, depot and day keeps at most one ACTIVE route |
| AssignActive.RunDeletesOwnPlansOnly | scripts/driver_route_assign.py:868-886 | a plan that is there and that no manifest claims as script-created survives every run unaltered, whatever is claimed about other plans |
| AssignFrame.PurgeUndoesInsert | scripts/driver_route_assign.py:524-543 | purging right after the graph is inserted gives back the store from before, up to the id counter |
| AssignFrame.ClearUndoesSeed | scripts/driver_route_assign.py:852-888 | seed then clear leaves the store as it was with the slot's old rows removed and the demotions made |
| AssignFrame.ClearRemovesSlotOnly | scripts/driver_route_assign.py:852-888 | a clear removes the slot's rows, its manifest and at most one idle claimed plan; every other row is unchanged |
| AssignFrame.ClearDropsPlanExactly | scripts/driver_route_assign.py:868-886 | a clear deletes a plan iff the scenario's manifest claims it as script-created and every route on it has the slot's code |
| AssignFrame.SeedLeavesRest | scripts/driver_route_assign.py:651-808 | a seed changes no row outside its slot except ACTIVE routes it demotes, and every row it adds belongs to the slot |
| AssignCounts.SeedSucceedsExactly | scripts/driver_route_assign.py:687-808 | a seed succeeds iff its counters stay in INTEGER range, which keeps every printed id within its column, and no other slot's row holds one of its labels or tracking ids; package references aside |
| AssignCounts.CountedIdsFit | scripts/driver_route_assign.py:283-310 | while the counters are in INTEGER range every printed id fits its column |
| AssignCounts.ClampedStopsFit | scripts/driver_route_assign.py:968 | with 1 to 8 stops, as the command line clamps them, all ids fit |
| AssignCounts.FirstSeedSucceeds | scripts/driver_route_assign.py:651-849 | on empty tables every seed with 1 to 8 stops succeeds, so the hypotheses of the seed lemmas can be met for any scenario, day, driver and status |
| AssignCounts.AppendReturnKeepsDrift | scripts/fe_demo_lib.py:471-591 | appending a RETURN stop adds one stop and one to the counter: an exact counter stays exact, one that is too high stays so |
| AssignCounts.SeedCounter | scripts/driver_route_assign.py:687-787 | the inserted route has `stops` operational stops plus a RETURN stop, while its counter says one more in return scenarios |
| AssignCounts.RunCounted | scripts/driver_route_assign.py:693 | in every run `total_stops` is the number of route stops, plus one in return scenarios |
| AssignCounts.SeedWritesRoute | scripts/driver_route_assign.py:704-808 | the new route carries exactly stops 1..n in order, each with its order, delivery stop and two packages, and the RETURN stop last |
| AssignContents.SeedWritesRow | scripts/driver_route_assign.py:687-839 | after a seed exactly one route has the slot's code: it is new, the given driver's, in the given status and of the scenario's type, on the plan of depot and day; the manifest names it, its plan and whether the plan is new |
| AssignContents.SeedDemotesExactly | scripts/driver_route_assign.py:501-521 | a route outside the slot changes iff the seed is ACTIVE and demotes and the route is an ACTIVE one of the driver, planned for the depot and day; then only its status, to ASSIGNED |
| AssignContents.SeedWritesStops | scripts/driver_route_assign.py:211-264 | read from the tables, each stop of the seeded route carries an order of the given organization and customer, a delivery stop for the day and two packages, in the scenario's statuses and under its printed ids; the RETURN stop goes to the pickup address |
| AssignReseed.ReseedIsSeed | scripts/driver_route_assign.py:651-849 | seed; seed succeeds whenever seed does and gives the same store up to generated ids and the manifest's claim on the plan |
| AssignReseed.ReseedOrphansPlan | scripts/driver_route_assign.py:823-886 | a plan the first seed created is deleted by clear, but not after a second seed |
| AssignSession.Session.DeleteScenarioSeedRows | scripts/driver_route_assign.py:524-543 | select, delete route, delete orders: the tables end as the purge function says |
| AssignSession.Session.DemoteOtherActiveRoutes | scripts/driver_route_assign.py:501-521 | demotes exactly the other ACTIVE routes of driver, depot and day, and returns how many |
| AssignSession.Session.FindOrCreatePlan | scripts/driver_route_assign.py:622-629 | returns the one plan of depot and day, creating it iff absent |
| AssignSession.Session.InsertStop | scripts/driver_route_assign.py:714-785 | the five inserts of a stop, or a failure exactly when an id is too long or taken |
| AssignSession.Session.AppendReturnRouteStop | scripts/fe_demo_lib.py:471-591 | one RETURN stop and one more in `total_stops` |
| AssignSession.Session.InsertRouteGraph | scripts/driver_route_assign.py:687-808 | the insertion loop equals inserting the graph, and stops at the first failure |
| AssignSession.Session.AssignTodayDriverRoute | scripts/driver_route_assign.py:651-849 | purge, demote, plan, graph and manifest in order equal the seed function |
| AssignSession.Session.RunAssign | scripts/driver_route_assign.py:891-899 | commits a whole seed, or returns false and leaves the tables as they were |
| AssignSession.Session.RunClear | scripts/driver_route_assign.py:852-888 | equals the clear function and keeps all constraints |
| SuspensionBackfill.KeepingLeavesSurvivors | alembic/versions/0077_suspension_rules_refactor.py:347-381 | ON CONFLICT DO NOTHING keeps a condition iff no earlier survivor shares its mapped type or its position |
| SuspensionBackfill.SurvivesExactly | alembic/versions/0077_suspension_rules_refactor.py:95-96 | a condition of a list survives iff no earlier survivor has its mapped type or its position |
| SuspensionBackfill.SkippingFailsExactly | alembic/versions/0077_suspension_rules_refactor.py:359-370 | ON CONFLICT DO NOTHING fails iff some row, conflicting or not, does not fit its columns |
| SuspensionBackfill.SurvivorsAreMaximal | alembic/versions/0077_suspension_rules_refactor.py:95-96 | every dropped condition clashes with an earlier survivor |
| SuspensionBackfill.AtMostFour | alembic/versions/0077_suspension_rules_refactor.py:95-96 | a rule set holds at most four conditions however long its list |
| SuspensionBackfill.KeptInFullExactly | alembic/versions/0077_suspension_rules_refactor.py:347-381 | a list is kept in full iff no two of its conditions share a mapped type or a position |
| SuspensionBackfill.DistinctPositionsKeepFirstOfType | app/modules/org_credit_suspension/v1/schemas.py:38-50 | a list with distinct positions keeps exactly the first condition of each type |
| SuspensionBackfill.UpgradeKeepsConstraints | alembic/versions/0077_suspension_rules_refactor.py:225-381 | the inserts keep the name, scope, type and position constraints and everything that was there |
| SuspensionBackfill.UpgradeTwice | alembic/versions/0077_suspension_rules_refactor.py:213-381 | running the backfill again adds nothing |
| SuspensionBackfill.UpgradeSucceedsExactly | alembic/versions/0077_suspension_rules_refactor.py:75-96 | into empty tables the backfill succeeds iff no legacy rule bears an organization's override name and every list row fits its INTEGER, VARCHAR(8) and NUMERIC(12, 2) columns |
| SuspensionBackfill.ApiItemFitsExactly | app/modules/org_credit_suspension/v1/schemas.py:22-34 | an item the API accepts fits its row iff its value rounds to less than ten thousand million |
| SuspensionBackfill.ItemFitsExactly | alembic/versions/0077_suspension_rules_refactor.py:357-359 | any item fits its row iff its position is in INTEGER range, its operator has no text beyond eight characters and its value rounds to less than ten thousand million either way |
| SuspensionBackfill.OverwideThresholdAborts | alembic/versions/0077_suspension_rules_refactor.py:359-370 | one value of 10000000000.00 in one organization's list fails the whole backfill |
| SuspensionBackfill.OverrideHoldsSurvivors | alembic/versions/0077_suspension_rules_refactor.py:298-381 | after the whole backfill an organization's rule set holds exactly the survivors of its list, in order |
| SuspensionBackfill.OverrideIsItsConfig | alembic/versions/0077_suspension_rules_refactor.py:310-381 | after the backfill an organization has an active rule set with its own switches, and every condition in it has the type, position, connector and rounded threshold that one item of its list says |
| SuspensionBackfill.NoOrganisationNoRuleSet | alembic/versions/0077_suspension_rules_refactor.py:310-312 | a configuration without an organization leaves no rule set |
| SuspensionBackfill.LegacyRuleBecomes | alembic/versions/0077_suspension_rules_refactor.py:226-296 | after the backfill a legacy rule is a global rule set with its name and status and has exactly the conditions its trigger names, each with its own threshold, from position 1, the amount after the days and joined by AND |
| SuspensionBackfill.ActivitiesLinked | alembic/versions/0078_suspension_activity_ruleset_bridge.py:66-81 | after 0077 and 0078 every activity row with a rule has a valid rule set, others are unchanged, and 0079 changes nothing |
| SuspensionBackfill.BridgeLinksExactly | alembic/versions/0078_suspension_activity_ruleset_bridge.py:66-81 | the update links exactly the rows without a rule set whose rule is one, and never leaves a dangling link |
| SuspensionBackfill.Migration.InsertRows | alembic/versions/0077_suspension_rules_refactor.py:275-296 | plain inserts succeed iff every row fits and none conflicts with one before it, and then append all |
| SuspensionBackfill.Migration.BackfillLegacy | alembic/versions/0077_suspension_rules_refactor.py:226-296 | the legacy loop equals its specification, failing at the first conflict |
| SuspensionBackfill.Migration.InsertConditions | alembic/versions/0077_suspension_rules_refactor.py:348-381 | the insert loop drops the rows that conflict with one already there and fails on the first that does not fit |
| SuspensionBackfill.Migration.BackfillConfigs | alembic/versions/0077_suspension_rules_refactor.py:298-381 | the organization loop equals its specification, failing at a taken name or a row that does not fit |
| SuspensionBackfill.Migration.RunUpgrade | alembic/versions/0077_suspension_rules_refactor.py:213-381 | both loops, or none of their effects |
| CodeAllocator.InitialiseAhead | alembic/versions/0021_db_sequences_for_driver_and_invoice_codes.py:23-42 | `setval` leaves the sequence ahead of every code present, and raises iff the largest suffix is 0 |
| CodeAllocator.SuffixExactly | alembic/versions/0021_db_sequences_for_driver_and_invoice_codes.py:28-34 | a code parses iff it is the prefix followed by digits alone, and to their number |
| CodeAllocator.InitialiseLeast | alembic/versions/0021_db_sequences_for_driver_and_invoice_codes.py:23-42 | after the initialisation the next number is 1 or exactly one more than the largest suffix present |
| CodeAllocator.FirstCodes | alembic/versions/0021_db_sequences_for_driver_and_invoice_codes.py:43-66 | where no code parses the first driver is DR-001, by default and by the script, and the first invoice INV-000001 |
| CodeAllocator.RunAhead | alembic/versions/0021_db_sequences_for_driver_and_invoice_codes.py:23-66 | the sequence stays ahead over every interleaving of deletes with default and script inserts, committed or rolled back |
| CodeAllocator.DefaultCodeIsFresh | alembic/versions/0021_db_sequences_for_driver_and_invoice_codes.py:23-66 | below 10^width each default code after such a run is new and parses back to its number |
| CodeAllocator.InvoiceNumbersAreFresh | alembic/versions/0021_db_sequences_for_driver_and_invoice_codes.py:46-66 | invoice numbers are new and documented up to 999999, and lose a digit beyond |
| CodeAllocator.DefaultFailsExactly | alembic/versions/0021_db_sequences_for_driver_and_invoice_codes.py:43 | a default insert fails iff lpad cuts its number and the cut number's code is present |
| CodeAllocator.DefaultMatchesDocumentation | alembic/versions/0021_db_sequences_for_driver_and_invoice_codes.py:22 | the default prints the documented code iff the number is below 10^width |
| CodeAllocator.ThousandthDriverRefused | alembic/versions/0021_db_sequences_for_driver_and_invoice_codes.py:22-43 | with DR-100 and DR-999 present the next default insert fails |
| CodeAllocator.DefaultsExhausted | alembic/versions/0021_db_sequences_for_driver_and_invoice_codes.py:43 | once the full-width codes are all present and outgrown, no default insert ever succeeds |
| CodeAllocator.ScriptCodeIsFresh | demo_data.py:118-142 | the script's code is new in every table |
| CodeAllocator.ScriptNumberLeast | demo_data.py:139-142 | the script's next number is 1 or exactly one more than the largest trimmed suffix present |
| CodeAllocator.TrimTakesSpaces | demo_data.py:118-122 | trim takes the spaces off both ends of a code and nothing else |
| CodeAllocator.ScriptReissuesDeletedCode | demo_data.py:118-142 | deleting the newest driver makes the script issue its code again |
| CodeAllocator.BurnedScriptRewinds | demo_data.py:250 | a rolled-back script insert leaves the sequence just past the largest code present, still ahead of the table |
| CodeAllocator.DefaultNumbersNeverRepeat | alembic/versions/0021_db_sequences_for_driver_and_invoice_codes.py:43 | default inserts alone never draw a number twice |
| CodeAllocator.MaxNumber | demo_data.py:118-122 | the loop finds SQL's MAX, none for no rows |
| CodeAllocator.CodeTable.InitialiseSequence | alembic/versions/0021_db_sequences_for_driver_and_invoice_codes.py:23-42 | `setval` with its `is_called` flag, or an error |
| CodeAllocator.CodeTable.Insert | alembic/versions/0021_db_sequences_for_driver_and_invoice_codes.py:43 | draws the next number and inserts its lpad code, or fails with the number spent |
| CodeAllocator.CodeTable.InsertByScript | demo_data.py:219-250 | inserts one plus the largest suffix and sets the sequence to it |
| Numerals.ValueOfPadGrow | demo_data.py:130-132 | parsing undoes `f"{n:03d}"` for every number |
| Numerals.ValueOfPadLpad | alembic/versions/0021_db_sequences_for_driver_and_invoice_codes.py:43 | parsing undoes lpad printing iff the number is below 10^width, else gives the leading digits |
| PickupDrive.ResetIs | scripts/run_demo_pickup_drive.py:161-185 | a reset sets route, stops, orders and packages of the rows back, empties the events and touches nothing else |
| PickupDrive.ResetIdempotent | scripts/run_demo_pickup_drive.py:161-185 | resetting twice is resetting once |
| PickupDrive.ResetThenDrive | scripts/run_demo_pickup_drive.py:335-396 | from any prior state, reset and drive finishes iff the route is the demo driver's and every located stop can be driven; then exactly the located stops are COMPLETED, the rest READY |
| PickupDrive.RunFinishesExactly | scripts/run_demo_pickup_drive.py:339-396 | with or without reset, a run finishes iff there are stops, the route is the demo driver's and not left completed, and every located stop has a path and an order with packages; then exactly the located stops and their packages changed |
| PickupDrive.RunChangesNothingExactly | scripts/run_demo_pickup_drive.py:339-396 | a run without reset changes nothing iff there is no stop, the route is completed or it is not the demo driver's |
| PickupDrive.FinishedThenRefused | scripts/run_demo_pickup_drive.py:348-396 | driving again after a finished drive changes nothing |
| PickupDrive.FailedRunKeepsEarlierRows | app/modules/drivers/service.py:3057-3059 | a failing row, with or without reset, leaves the route ACTIVE with exactly the earlier rows driven |
| PickupDrive.DriveTicks | scripts/run_demo_pickup_drive.py:223-266 | over any legs of any length the pings tick on one step apart across leg boundaries |
| PickupDrive.FinishedDriveTimes | scripts/run_demo_pickup_drive.py:254-323 | of a finished drive at any pace, finish minus start is the number of pings times the step, and the recorded pings are at least a second apart per index |
| PickupDrive.FinishedRunRecords | app/modules/drivers/service.py:2751-2806 | a finished run records its start, then an arrival and a completion for every driven stop, then its completion |
| PickupDrive.DrivenStopsArrive | scripts/run_demo_pickup_drive.py:269-297 | each driven stop's arrival is the start plus all pings up to and including its leg |
| PickupHistory.ArrivalsOnRecord | scripts/run_demo_pickup_drive.py:369-383 | after a finished drive each driven stop has the arrival of its own leg on record |
| PickupHistory.PingInOneWindow | scripts/run_demo_pickup_drive.py:358-383 | every ping a finished drive has on record lies in exactly one half-open window between the recorded arrivals of consecutive driven stops |
| PickupHistory.WindowCount | app/modules/planning/route_geometry_service.py:491-512 | the recorded pings of a leg's closed window are counted by the leg's window |
| PickupHistory.WindowHoldsOneMore | app/modules/planning/route_geometry_service.py:508-511 | the closed window of a leg holds its pings and the first of the next leg |
| PickupHistory.HistoryCountsBoundariesTwice | app/modules/planning/route_geometry_service.py:214-306 | total_points of a finished drive is the pings sent plus one for every leg but the last minus the pings beyond 101 of each window; so every boundary counts twice iff no window holds more than 101 |
| PickupHistory.ShortLegsCountTwice | app/modules/planning/route_geometry_service.py:50 | with at most 100 pings a leg every boundary ping is counted twice |
| PickupHistory.LongLegsAreThinned | app/modules/planning/route_geometry_service.py:305-306 | two legs of 150 pings leave 202 points of the 300 |
| PickupDrive.StepSeconds | scripts/run_demo_pickup_drive.py:254 | pings are at least a second apart: exactly one, or the leg's seconds divided by its pings when that is more |
| PickupDrive.DriveSession.ResetRoute | scripts/run_demo_pickup_drive.py:161-185 | the reset loop equals the reset function and commits it |
| PickupDrive.DriveSession.DriverSetRouteStatus | app/modules/drivers/service.py:2751-2773 | sets the status and records the event, or finds no route of this driver |
| PickupDrive.DriveSession.DriverUpdateStopStatus | app/modules/drivers/service.py:2774-2806 | sets the stop's status, its arrival only on ARRIVED, and records the event |
| PickupDrive.DriveSession.PickupScanPackagesForOrder | app/modules/drivers/service.py:3023-3105 | loads every package of the order, or fails iff there is none |
| PickupDrive.DriveSession.DriveOneLeg | scripts/run_demo_pickup_drive.py:204-266 | the loop records one ping a path point and returns the time after the last |
| PickupDrive.DriveSession.ArriveCollectComplete | scripts/run_demo_pickup_drive.py:269-301 | arrive, collect and complete leave the stop COMPLETED with the simulated arrival |
| PickupDrive.DriveSession.RunDrive | scripts/run_demo_pickup_drive.py:335-396 | the committed rows and the outcome equal the run function, with each row committed or rolled back as a whole |
| Downsampling.LegPathSamples | scripts/run_demo_pickup_drive.py:119-122 | sampling keeps exactly `points` entries at strictly increasing indices from the first to the last, each the nearest to its equal step, ties to even |
| Downsampling.ClampNeverFires | scripts/run_demo_pickup_drive.py:121-122 | half-to-even rounding never exceeds the last index |
| Downsampling.LinearPath | scripts/run_demo_pickup_drive.py:87-96 | the straight path runs from start to end in equal steps, or is the end alone for at most one point |
| Downsampling.DriveLegPath | scripts/run_demo_pickup_drive.py:217-221 | a leg's path is the polyline itself when short enough, else its sample, else the straight line; it has at most `points` entries and is empty iff the polyline has no readable point |
| Downsampling.Thin | app/modules/planning/route_geometry_service.py:573-587 | the sampler's loop keeps exactly the specified indices, all of them up to the limit |
| Downsampling.ThinnedKeepsEnds | app/modules/planning/route_geometry_service.py:573-587 | thinning leaves max + 1 records in order with both ends: record i is the one in which the i-th of max equal steps begins, and consecutive ones are less than a step and one apart |
| Weekdays.NextWeekday | scripts/demo_driver_mobile.py:142-148 | the nested loops equal the k-fold next-weekday function |
| Weekdays.PrevWeekday | scripts/demo_driver_mobile.py:133-139 | the nested loops equal the k-fold previous-weekday function |
| Weekdays.WeekdayIs | scripts/demo_driver_mobile.py:137-146 | days of the week follow one another, the first of January 2000 is a Saturday, and work stops on Saturday and Sunday |
| Weekdays.NextIsKthWeekday | scripts/demo_driver_mobile.py:142-148 | the result is the one weekday after d with exactly k weekdays in (d, result] |
| Weekdays.PrevIsKthWeekday | scripts/demo_driver_mobile.py:133-139 | the result is the one weekday before d with exactly k weekdays in [result, d) |
| Weekdays.NextComposes | scripts/demo_driver_mobile.py:142-148 | stepping j then k is stepping j + k |
| Weekdays.NextMonotone | scripts/demo_driver_mobile.py:142-148 | stepping is monotone in date and count, strictly in the count |
| Weekdays.PrevUndoesNext | scripts/demo_driver_mobile.py:133-148 | k forward and k back returns a weekday to itself, a weekend day to the Friday before |
| Weekdays.NextUndoesPrev | scripts/demo_driver_mobile.py:133-148 | k back and k forward returns a weekday to itself, a weekend day to the Monday after |
| Weekdays.DemoShiftDates | demo_data.py:468-484 | the bounded searches always find their days and give the five previous and five next weekdays |
| Weekdays.ShiftWindowIs | demo_data.py:468-500 | ten strictly increasing days, exactly the five nearest weekdays on each side, never today, so no shift is in progress |
| Billing.VatError | scripts/seed_org_billing_complete_demo.py:55-57 | VAT, and so the total, is within half a penny of the exact amount |
| Billing.VatMonotone | scripts/seed_org_billing_complete_demo.py:55-57 | VAT and total grow with the subtotal |
| Billing.VatOfSum | scripts/seed_org_billing_complete_demo.py:55-57 | VAT summed over n invoices differs from VAT on the sum by at most (n + 1) / 2 pennies |
| Billing.StandardRateHasNoTies | scripts/seed_org_billing_complete_demo.py:55-57 | at 20 per cent half-even equals half-up and the error is at most two fifths of a penny |
| Billing.ReducedRateTies | scripts/seed_org_billing_complete_demo.py:55-57 | at 5 per cent half-even and half-up differ iff the subtotal leaves 10 modulo 40, by one penny |
| Billing.PartPaymentLeavesBalance | scripts/seed_org_billing_complete_demo.py:319-321 | a part payment is within half a penny of its share, between nothing and the total, and at 55 per cent settles it iff it is at most a penny |
| Billing.MinusDayOrdinal | scripts/seed_org_billing_complete_demo.py:489 | the day before has the ordinal one lower, across month and year ends |
| Billing.StepBack | scripts/seed_org_billing_complete_demo.py:484-488 | the step-back loop yields the first day of the month k months earlier, or leaves the calendar |
| Billing.StatementsAbut | scripts/seed_org_billing_complete_demo.py:214-216 | consecutive statement periods leave no day between them and share none |
| Billing.StatementsPartition | scripts/seed_org_billing_complete_demo.py:484-490 | the last n periods cover every day up to the current month, each in exactly one |
| Rounding.RoundCharacterised | scripts/seed_org_billing_complete_demo.py:51-52 | quantize gives the nearest integer, and the even one of two equally near |
| Rounding.RoundingsDifferExactly | scripts/seed_org_billing_complete_demo.py:51-52 | half-even and half-up differ iff the remainder is half the divisor and the quotient is even |
| Calendar.OrdinalFindsMonth | scripts/seed_org_billing_complete_demo.py:214-216 | a day lies within a month's first and last day iff it has that month and year |
| CustomerResolution.ResolveOrgB2bCustomer | scripts/fe_demo_lib.py:334-407 | returns a user iff an active B2B user is linked to the organization directly or by an active contact, and then such a user: the first row with the preferred email if it qualifies, else the first active primary contact's user if a member, else the first direct member, else the user of the first contact that names a member; otherwise raises for this organization |
| CustomerResolution.MembersAreCandidates | scripts/fe_demo_lib.py:342-400 | if any user qualifies, some candidate the search looks at does |
| CustomerResolution.PreferredReturnedExactly | scripts/fe_demo_lib.py:334-407 | an active B2B user with the preferred email is returned whenever it qualifies, under any contacts and organization, iff no earlier row spells that email in another case or no other user is an active B2B customer |
| CustomerResolution.TwoSpellings | scripts/fe_demo_lib.py:349-354 | a table with unique emails on which the search returns another member than the qualifying one with the preferred email |
| DefaultRows.SettlesOneDefault | scripts/fe_demo_lib.py:238-311 | an organization without a default gets exactly one, one with defaults keeps their number, others are untouched |
| DefaultRows.SettledTwice | scripts/fe_demo_lib.py:238-311 | a second call settles on the same row and changes nothing |
| DefaultRows.SettledLeavesRest | scripts/fe_demo_lib.py:238-311 | no other row is altered, removed or reordered, and a row is added iff the organization had none |
| DefaultRows.OrgTables.EnsureOrgDefaultPickup | scripts/fe_demo_lib.py:269-311 | default, then labelled, then any pickup, else a new one; the table ends as specified and the default row is returned |
| DefaultRows.OrgTables.EnsureOrgDefaultPaymentMethod | scripts/fe_demo_lib.py:238-266 | default, else any payment method, else a new one; the table ends as specified and the default row is returned |

## Left out

- Assumption of the assign lemmas: a slot's orders are reached only from the slot's own route and packages (`AtHome`);
  `AssignRuns.RunAtHome` shows that every run keeps it.
- AssignCounts.SeedSucceedsExactly: does not model `packages.package_id`, a unique reference that the column default draws from
  a sequence (app/modules/orders/models.py:421-427); a seed also fails when a drawn reference is taken.
- Get-or-create of depot, vehicle, driver, organization, customer and pickup address: their resolved ids are arguments.
- Literal demo columns of inserted rows: amounts, addresses, recipients, vehicle, estimated times, polylines, notes.
- `compute_route_navigation_fingerprint` and the dashboard read that verifies a seed: neither changes a modelled row.
- The manifest file is written just before the commit; a commit that fails after it is not modelled.
- Alembic's table and column guards, condition ids, timestamps and version columns of the migrations; downgrades.
- Elements of `trigger_conditions` that are not JSON objects, whose numbers do not parse, whose value is not finite, or whose
  operator is not a text.
- The bigint range of PostgreSQL sequences and suffixes.
- The draft ids (DF-) of `demo_data.py`, which allocate like its driver codes but without a sequence.
- The traveled-history rows that the geometry service stores, the routing service it asks, and map matching; only its counts
  of points are modelled.
- The history of a route with stops other than the driven rows, or with delivery-stop coordinates on a row whose pickup
  address has none. Its start event is recorded no later than the start the script notes.
- SPEEDING and HARSH_BRAKING events, ping coordinates, speeds and jitter: random, and read by nothing that is modelled.
- The rounding of the drive time to hundredths of a minute; the model keeps exact seconds.
- Wall-clock timestamps of status events; the arrival that `driver_update_stop_status` records is overwritten at once.
- Binary floating point in sampling and interpolation: steps are exact fractions.
- The 28-digit precision of Python's Decimal and the upper year limit 9999 of its dates.
- Lower-casing beyond ASCII, where Python and PostgreSQL may differ.
- Row order: a query without ORDER BY returns rows in one fixed order per table, the same for every query of a call.
- Redis, HTTP, argparse, printing and sleeping.
- The legacy suspension evaluator: the claims about migration 0077 are about rows and links, not evaluation results.
- `scripts/seed_fatima_driver_timeline_demo.py`: its purge prefix does not match the codes it prints, so re-seeding is not idempotent.
