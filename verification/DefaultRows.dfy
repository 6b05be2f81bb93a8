/** The helpers of scripts/fe_demo_lib.py that settle an organization's default pickup address and payment method. */
module DefaultRows {
  import opened Outcomes

  type Id = nat

  /** A row of pickup_addresses or org_payment_methods. A pickup address may belong to no organization. */
  datatype Row<T> = Row(id: Id, org: Option<Id>, isDefault: bool, body: T)

  const PICKUP_LABEL := "Frontend Demo Pickup"

  datatype PaymentModel = CreditAccount | OtherModel

  predicate IsDefaultOf<T>(r: Row<T>, org: Id) {
    r.org == Some(org) && r.isDefault
  }

  /** The first row that satisfies p, or the number of rows. */
  function Find<T>(rows: seq<Row<T>>, p: Row<T> -> bool): (k: nat)
    ensures k <= |rows|
    ensures forall i :: 0 <= i < k ==> !p(rows[i])
    ensures k < |rows| ==> p(rows[k])
  {
    if rows == [] then 0 else if p(rows[0]) then 0 else 1 + Find(rows[1..], p)
  }

  /** The row a helper settles on: the default one, else a preferred one, else any of the organization; |rows| if none. */
  function Pick<T>(rows: seq<Row<T>>, org: Id, prefers: T -> bool): (k: nat)
    ensures k <= |rows|
    ensures k == |rows| <==> forall r :: r in rows ==> r.org != Some(org)
    ensures k < |rows| ==> rows[k].org == Some(org)
    ensures k < |rows| && !rows[k].isDefault ==> forall r :: r in rows ==> !IsDefaultOf(r, org)
    ensures k < |rows| && !IsDefaultOf(rows[k], org) && !prefers(rows[k].body) ==>
      forall r :: r in rows && r.org == Some(org) ==> !prefers(r.body)
  {
    var d := Find(rows, (r: Row<T>) => IsDefaultOf(r, org));
    if d < |rows| then d
    else
      var l := Find(rows, (r: Row<T>) => r.org == Some(org) && prefers(r.body));
      if l < |rows| then l else Find(rows, (r: Row<T>) => r.org == Some(org))
  }

  /** The table after a helper has run; created is the row it adds when the organization has none. */
  function Settled<T>(rows: seq<Row<T>>, org: Id, prefers: T -> bool, created: Row<T>): seq<Row<T>> {
    var k := Pick(rows, org, prefers);
    if k < |rows| then rows[k := rows[k].(isDefault := true)] else rows + [created]
  }

  function Defaults<T>(rows: seq<Row<T>>, org: Id): nat {
    if rows == [] then 0
    else Defaults(rows[..|rows| - 1], org) + (if IsDefaultOf(rows[|rows| - 1], org) then 1 else 0)
  }

  lemma {:induction false} NoDefaults<T>(rows: seq<Row<T>>, org: Id)
    requires forall r :: r in rows ==> !IsDefaultOf(r, org)
    ensures Defaults(rows, org) == 0
  {
    if rows != [] {
      NoDefaults(rows[..|rows| - 1], org);
    }
  }

  lemma {:induction false} DefaultsPositive<T>(rows: seq<Row<T>>, org: Id, k: nat)
    requires k < |rows| && IsDefaultOf(rows[k], org)
    ensures Defaults(rows, org) >= 1
  {
    if k < |rows| - 1 {
      DefaultsPositive(rows[..|rows| - 1], org, k);
    }
  }

  lemma {:induction false} DefaultsUpdate<T>(rows: seq<Row<T>>, org: Id, k: nat, r: Row<T>)
    requires k < |rows|
    ensures Defaults(rows[k := r], org) ==
      Defaults(rows, org) - (if IsDefaultOf(rows[k], org) then 1 else 0) + (if IsDefaultOf(r, org) then 1 else 0)
  {
    var n := |rows| - 1;
    if k < n {
      DefaultsUpdate(rows[..n], org, k, r);
      assert rows[k := r][..n] == rows[..n][k := r];
    } else {
      assert rows[k := r][..n] == rows[..n];
    }
  }

  predicate CreatedFor<T>(created: Row<T>, org: Id) {
    created.org == Some(org) && created.isDefault
  }

  /** An organization without a default gets exactly one; one that has defaults keeps their number; no other
      organization's defaults change. */
  lemma SettlesOneDefault<T>(rows: seq<Row<T>>, org: Id, prefers: T -> bool, created: Row<T>, other: Id)
    requires CreatedFor(created, org)
    ensures var after := Settled(rows, org, prefers, created);
      && Defaults(after, org) == (if Defaults(rows, org) == 0 then 1 else Defaults(rows, org))
      && (other != org ==> Defaults(after, other) == Defaults(rows, other))
  {
    hide Defaults, Pick;
    var k := Pick(rows, org, prefers);
    if k < |rows| {
      DefaultsUpdate(rows, org, k, rows[k].(isDefault := true));
      DefaultsUpdate(rows, other, k, rows[k].(isDefault := true));
      if rows[k].isDefault {
        DefaultsPositive(rows, org, k);
      } else {
        NoDefaults(rows, org);
      }
    } else {
      NoDefaults(rows, org);
      DefaultsSnoc(rows, created, org);
      DefaultsSnoc(rows, created, other);
    }
  }

  lemma DefaultsSnoc<T>(rows: seq<Row<T>>, r: Row<T>, org: Id)
    ensures Defaults(rows + [r], org) == Defaults(rows, org) + (if IsDefaultOf(r, org) then 1 else 0)
  {
  }

  /** A second call settles on the same row and changes nothing, whatever row it would have added. */
  lemma SettledTwice<T>(rows: seq<Row<T>>, org: Id, prefers: T -> bool, created: Row<T>, created2: Row<T>)
    requires CreatedFor(created, org)
    ensures var after := Settled(rows, org, prefers, created);
      && Pick(after, org, prefers) == Pick(rows, org, prefers)
      && Settled(after, org, prefers, created2) == after
  {
    var after := Settled(rows, org, prefers, created);
    var k := Pick(rows, org, prefers);
    var p := (r: Row<T>) => IsDefaultOf(r, org);
    assert IsDefaultOf(after[k], org);
    assert forall i :: 0 <= i < k ==> !p(rows[i]) by {
      if k < |rows| && rows[k].isDefault {
        assert k == Find(rows, p);
      }
    }
    assert Find(after, p) == k;
    assert Pick(after, org, prefers) == k;
  }

  /** No row is removed or reordered, and every row but the one settled on stays as it was. */
  lemma SettledLeavesRest<T>(rows: seq<Row<T>>, org: Id, prefers: T -> bool, created: Row<T>)
    ensures var after, k := Settled(rows, org, prefers, created), Pick(rows, org, prefers);
      && |rows| <= |after| <= |rows| + 1
      && (|after| == |rows| <==> exists r :: r in rows && r.org == Some(org))
      && (forall i :: 0 <= i < |rows| && i != k ==> after[i] == rows[i])
      && (k < |rows| ==> after[k] == rows[k].(isDefault := true))
  {
  }

  predicate IsDemoLabel(l: Option<string>) {
    l == Some(PICKUP_LABEL)
  }

  predicate NoPreference(m: PaymentModel) {
    false
  }

  /** The two tables as the session sees them. */
  class OrgTables {
    var pickups: seq<Row<Option<string>>>
    var methods: seq<Row<PaymentModel>>

    /** ensure_org_default_pickup. id is the key the database gives a new row. */
    method EnsureOrgDefaultPickup(org: Id, id: Id) returns (pickup: Row<Option<string>>)
      modifies this`pickups
      ensures pickups == Settled(old(pickups), org, IsDemoLabel, Row(id, Some(org), true, Some(PICKUP_LABEL)))
      ensures Pick(old(pickups), org, IsDemoLabel) < |pickups| && pickup == pickups[Pick(old(pickups), org, IsDemoLabel)]
      ensures IsDefaultOf(pickup, org)
    {
      hide Find;
      var k := Find(pickups, (r: Row<Option<string>>) => IsDefaultOf(r, org));
      if k == |pickups| {
        k := Find(pickups, (r: Row<Option<string>>) => r.org == Some(org) && IsDemoLabel(r.body));
      }
      if k == |pickups| {
        k := Find(pickups, (r: Row<Option<string>>) => r.org == Some(org));
      }
      assert k == Pick(pickups, org, IsDemoLabel);
      if k == |pickups| {
        pickup := Row(id, Some(org), true, Some(PICKUP_LABEL));
        pickups := pickups + [pickup];
        return;
      }
      if !pickups[k].isDefault {
        pickups := pickups[k := pickups[k].(isDefault := true)];
      }
      pickup := pickups[k];
    }

    /** ensure_org_default_payment_method. */
    method EnsureOrgDefaultPaymentMethod(org: Id, id: Id) returns (pm: Row<PaymentModel>)
      modifies this`methods
      ensures methods == Settled(old(methods), org, NoPreference, Row(id, Some(org), true, CreditAccount))
      ensures Pick(old(methods), org, NoPreference) < |methods| && pm == methods[Pick(old(methods), org, NoPreference)]
      ensures IsDefaultOf(pm, org)
    {
      hide Find;
      var k := Find(methods, (r: Row<PaymentModel>) => IsDefaultOf(r, org));
      if k == |methods| {
        k := Find(methods, (r: Row<PaymentModel>) => r.org == Some(org));
        if k < |methods| {
          assert k == Pick(methods, org, NoPreference);
          methods := methods[k := methods[k].(isDefault := true)];
        }
      }
      if k == |methods| {
        methods := methods + [Row(id, Some(org), true, CreditAccount)];
      }
      pm := methods[k];
    }
  }
}
