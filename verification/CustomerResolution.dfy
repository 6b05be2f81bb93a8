/** The search for an organization's portal user, scripts/fe_demo_lib.py. Tables are sequences in whatever order the
    database returns their rows. */
module CustomerResolution {
  import opened Outcomes

  type Id = nat

  datatype User = User(id: Id, email: string, b2b: bool, active: bool, org: Option<Id>)
  datatype Contact = Contact(org: Id, user: Option<Id>, primary: bool, active: bool)

  /** The SystemExit of a search that finds nobody. */
  datatype Unresolved = NoActiveB2bUser(org: Id)

  function LowerChar(c: char): char {
    if 'A' <= c <= 'Z' then ((c as int) + 32) as char else c
  }

  function Lower(s: string): (t: string)
    ensures |t| == |s| && forall i :: 0 <= i < |s| ==> t[i] == LowerChar(s[i])
  {
    if s == [] then [] else [LowerChar(s[0])] + Lower(s[1..])
  }

  predicate DistinctIds(users: seq<User>) {
    forall i, j :: 0 <= i < j < |users| ==> users[i].id != users[j].id
  }

  predicate HasActiveContact(contacts: seq<Contact>, user: Id, org: Id) {
    exists c :: c in contacts && c.org == org && c.user == Some(user) && c.active
  }

  /** An active B2B customer, linked to the organization directly or by an active contact. */
  predicate Member(u: User, contacts: seq<Contact>, org: Id) {
    u.b2b && u.active && (u.org == Some(org) || HasActiveContact(contacts, u.id, org))
  }

  predicate DirectMember(u: User, org: Id) {
    u.b2b && u.active && u.org == Some(org)
  }

  /** The first row of a query, as session.scalar returns it. */
  function First<T>(rows: seq<T>, p: T -> bool): (r: Option<T>)
    ensures r.None? <==> forall x :: x in rows ==> !p(x)
    ensures r.Some? ==> exists i :: 0 <= i < |rows| && rows[i] == r.value && p(rows[i]) && forall j :: 0 <= j < i ==> !p(rows[j])
  {
    if rows == [] then None
    else if p(rows[0]) then Some(rows[0])
    else
      var r := First(rows[1..], p);
      assert r.Some? ==> exists i :: 0 <= i < |rows| && rows[i] == r.value && p(rows[i]) && forall j :: 0 <= j < i ==> !p(rows[j]) by {
        if r.Some? {
          var i :| 0 <= i < |rows[1..]| && rows[1..][i] == r.value && p(rows[1..][i]) && forall j :: 0 <= j < i ==> !p(rows[1..][j]);
          assert forall j :: 0 <= j < i + 1 ==> !p(rows[j]) by {
            forall j | 0 <= j < i + 1 ensures !p(rows[j]) {
              if j > 0 { assert rows[j] == rows[1..][j - 1]; }
            }
          }
          assert rows[i + 1] == r.value;
        }
      }
      r
  }

  lemma FirstExactly(users: seq<User>, p: User -> bool, i: nat)
    requires DistinctIds(users) && i < |users| && p(users[i])
    ensures First(users, p) == Some(users[i]) <==> forall j :: 0 <= j < i ==> !p(users[j])
  {
  }

  /** session.get on the primary key. */
  function Get(users: seq<User>, id: Id): Option<User> {
    First(users, (u: User) => u.id == id)
  }

  lemma GetFinds(users: seq<User>, u: User)
    requires DistinctIds(users) && u in users
    ensures Get(users, u.id) == Some(u)
  {
  }

  /** The row the preferred email selects: none when no email is given, else the first whose email matches in any case. */
  function PreferredUser(users: seq<User>, preferred: Option<string>): Option<User> {
    if preferred.None? || preferred.value == "" then None
    else First(users, (u: User) => Lower(u.email) == Lower(preferred.value))
  }

  /** The user behind the organization's active primary contact. */
  function PrimaryUser(users: seq<User>, contacts: seq<Contact>, org: Id): Option<User> {
    match First(contacts, (c: Contact) => c.org == org && c.primary && c.active && c.user.Some?)
    case None => None
    case Some(c) => Get(users, c.user.value)
  }

  predicate Qualifies(u: Option<User>, contacts: seq<Contact>, org: Id) {
    u.Some? && Member(u.value, contacts, org)
  }

  predicate SomeMember(users: seq<User>, contacts: seq<Contact>, org: Id) {
    exists u :: u in users && Member(u, contacts, org)
  }

  /** Ids of the active contacts of the organization that name a user, in row order. */
  function ContactUserIds(contacts: seq<Contact>, org: Id): (ids: seq<Id>)
    ensures forall id :: id in ids <==> HasActiveContact(contacts, id, org)
  {
    if contacts == [] then []
    else
      var c, rest := contacts[0], ContactUserIds(contacts[1..], org);
      if c.org == org && c.active && c.user.Some? then [c.user.value] + rest else rest
  }

  function ContactUsers(users: seq<User>, contacts: seq<Contact>, org: Id): (us: seq<Option<User>>)
    ensures |us| == |ContactUserIds(contacts, org)|
    ensures forall i :: 0 <= i < |us| ==> us[i] == Get(users, ContactUserIds(contacts, org)[i])
  {
    var ids := ContactUserIds(contacts, org);
    seq(|ids|, i requires 0 <= i < |ids| => Get(users, ids[i]))
  }

  /** Whom the search considers, in its order of preference: the row with the preferred email, the primary contact, the
      first directly linked member, the users of the active contacts. */
  function Candidates(users: seq<User>, contacts: seq<Contact>, org: Id, preferred: Option<string>): seq<Option<User>> {
    [PreferredUser(users, preferred), PrimaryUser(users, contacts, org), First(users, (u: User) => DirectMember(u, org))]
    + ContactUsers(users, contacts, org)
  }

  /** u is the first qualifying candidate. */
  predicate Chosen(candidates: seq<Option<User>>, contacts: seq<Contact>, org: Id, u: User) {
    exists k :: 0 <= k < |candidates| && candidates[k] == Some(u) && Member(u, contacts, org)
      && forall j :: 0 <= j < k ==> !Qualifies(candidates[j], contacts, org)
  }

  // ---- The order of preference, in terms of the tables ----

  /** Row i is the first whose email is the preferred one in any case. */
  predicate PreferredRow(users: seq<User>, preferred: Option<string>, i: nat): (yes: bool)
    ensures yes ==> i < |users|
  {
    && preferred.Some? && preferred.value != "" && i < |users| && Lower(users[i].email) == Lower(preferred.value)
    && forall j :: 0 <= j < i ==> Lower(users[j].email) != Lower(preferred.value)
  }

  predicate NamesActiveUser(c: Contact, org: Id) {
    c.org == org && c.active && c.user.Some?
  }

  /** Contact k is the organization's first active primary contact that names a user, and users[j] is that user, a member. */
  predicate PrimaryMember(users: seq<User>, contacts: seq<Contact>, org: Id, k: nat, j: nat): (yes: bool)
    ensures yes ==> j < |users|
  {
    && k < |contacts| && NamesActiveUser(contacts[k], org) && contacts[k].primary
    && (forall i :: 0 <= i < k ==> !(NamesActiveUser(contacts[i], org) && contacts[i].primary))
    && j < |users| && contacts[k].user == Some(users[j].id) && Member(users[j], contacts, org)
  }

  /** Row i is the first active B2B customer of the organization itself. */
  predicate DirectRow(users: seq<User>, org: Id, i: nat): (yes: bool)
    ensures yes ==> i < |users|
  {
    && i < |users| && users[i].b2b && users[i].active && users[i].org == Some(org)
    && forall j :: 0 <= j < i ==> !(users[j].b2b && users[j].active && users[j].org == Some(org))
  }

  ghost predicate NoPreferred(users: seq<User>, contacts: seq<Contact>, org: Id, preferred: Option<string>) {
    forall i: nat :: PreferredRow(users, preferred, i) ==> !Member(users[i], contacts, org)
  }

  ghost predicate NoPrimary(users: seq<User>, contacts: seq<Contact>, org: Id) {
    forall k: nat, j: nat :: !PrimaryMember(users, contacts, org, k, j)
  }

  ghost predicate NoDirect(users: seq<User>, org: Id) {
    forall i: nat :: !DirectRow(users, org, i)
  }

  /** Contact k is the first active one of the organization whose user is a member, and users[j] is that user. */
  ghost predicate ContactMember(users: seq<User>, contacts: seq<Contact>, org: Id, k: nat, j: nat): (yes: bool)
    ensures yes ==> j < |users|
  {
    && k < |contacts| && NamesActiveUser(contacts[k], org) && j < |users| && contacts[k].user == Some(users[j].id)
    && Member(users[j], contacts, org)
    && forall i :: 0 <= i < k && NamesActiveUser(contacts[i], org) ==>
      forall u :: u in users && contacts[i].user == Some(u.id) ==> !Member(u, contacts, org)
  }

  /** u is the row with the preferred email if that is a member, else the user of the first primary contact if that is
      one, else the first direct member if there is one, else the user of the first contact that names a member. */
  ghost predicate InOrder(users: seq<User>, contacts: seq<Contact>, org: Id, preferred: Option<string>, u: User) {
    && (forall i: nat :: PreferredRow(users, preferred, i) && Member(users[i], contacts, org) ==> u == users[i])
    && (NoPreferred(users, contacts, org, preferred) ==>
          forall k: nat, j: nat :: PrimaryMember(users, contacts, org, k, j) ==> u == users[j])
    && (NoPreferred(users, contacts, org, preferred) && NoPrimary(users, contacts, org) ==>
          forall i: nat :: DirectRow(users, org, i) ==> u == users[i])
    && (NoPreferred(users, contacts, org, preferred) && NoPrimary(users, contacts, org) && NoDirect(users, org) ==>
          forall k: nat, j: nat :: ContactMember(users, contacts, org, k, j) ==> u == users[j])
  }

  lemma FirstIs<T>(rows: seq<T>, p: T -> bool, i: nat)
    requires i < |rows| && p(rows[i]) && forall j :: 0 <= j < i ==> !p(rows[j])
    ensures First(rows, p) == Some(rows[i])
  {
    hide First;
    var found := First(rows, p);
    assert rows[i] in rows && found.Some?;
    var k :| 0 <= k < |rows| && rows[k] == found.value && p(rows[k]) && forall j :: 0 <= j < k ==> !p(rows[j]);
    assert k == i;
  }

  lemma PreferredIs(users: seq<User>, preferred: Option<string>)
    ensures forall i: nat :: PreferredRow(users, preferred, i) ==> PreferredUser(users, preferred) == Some(users[i])
    ensures PreferredUser(users, preferred).Some? ==>
      exists i: nat :: PreferredRow(users, preferred, i) && PreferredUser(users, preferred) == Some(users[i])
  {
    hide Lower, First;
    if preferred.Some? && preferred.value != "" {
      var p := (u: User) => Lower(u.email) == Lower(preferred.value);
      assert PreferredUser(users, preferred) == First(users, p);
      forall i: nat | PreferredRow(users, preferred, i) ensures First(users, p) == Some(users[i]) {
        FirstIs(users, p, i);
      }
      if First(users, p).Some? {
        var k :| 0 <= k < |users| && users[k] == First(users, p).value && p(users[k]) && forall j :: 0 <= j < k ==> !p(users[j]);
        assert PreferredRow(users, preferred, k);
      }
    }
  }

  lemma PrimaryIs(users: seq<User>, contacts: seq<Contact>, org: Id)
    requires DistinctIds(users)
    ensures forall k: nat, j: nat :: PrimaryMember(users, contacts, org, k, j) ==> PrimaryUser(users, contacts, org) == Some(users[j])
    ensures Qualifies(PrimaryUser(users, contacts, org), contacts, org) ==>
      exists k: nat, j: nat :: PrimaryMember(users, contacts, org, k, j)
  {
    hide First, Get, Member, DistinctIds;
    var p := (c: Contact) => c.org == org && c.primary && c.active && c.user.Some?;
    var found := First(contacts, p);
    assert PrimaryUser(users, contacts, org) == if found.None? then None else Get(users, found.value.user.value);
    forall k: nat, j: nat | PrimaryMember(users, contacts, org, k, j) ensures PrimaryUser(users, contacts, org) == Some(users[j]) {
      FirstIs(contacts, p, k);
      assert users[j] in users;
      GetFinds(users, users[j]);
    }
    if Qualifies(PrimaryUser(users, contacts, org), contacts, org) {
      var k :| 0 <= k < |contacts| && contacts[k] == found.value && p(contacts[k]) && forall i :: 0 <= i < k ==> !p(contacts[i]);
      var j := GetRow(users, found.value.user.value);
      assert PrimaryMember(users, contacts, org, k, j);
    }
  }

  lemma GetRow(users: seq<User>, id: Id) returns (j: nat)
    requires Get(users, id).Some?
    ensures j < |users| && users[j] == Get(users, id).value && users[j].id == id
  {
    j :| 0 <= j < |users| && users[j] == Get(users, id).value && users[j].id == id;
  }

  lemma DirectIs(users: seq<User>, org: Id)
    ensures forall i: nat :: DirectRow(users, org, i) ==> First(users, (u: User) => DirectMember(u, org)) == Some(users[i])
    ensures NoDirect(users, org) ==> First(users, (u: User) => DirectMember(u, org)) == None
  {
    hide First;
    var p := (u: User) => DirectMember(u, org);
    forall i: nat | DirectRow(users, org, i) ensures First(users, p) == Some(users[i]) {
      FirstIs(users, p, i);
    }
    if First(users, p).Some? {
      var k :| 0 <= k < |users| && users[k] == First(users, p).value && p(users[k]) && forall j :: 0 <= j < k ==> !p(users[j]);
      assert DirectRow(users, org, k);
    }
  }

  lemma {:induction false} IdsSplit(contacts: seq<Contact>, org: Id, k: nat)
    requires k <= |contacts|
    ensures ContactUserIds(contacts, org) == ContactUserIds(contacts[..k], org) + ContactUserIds(contacts[k..], org)
  {
    if k == 0 {
      assert contacts[..0] == [] && contacts[0..] == contacts;
    } else {
      IdsSplit(contacts[1..], org, k - 1);
      assert contacts[..k][0] == contacts[0] && contacts[..k][1..] == contacts[1..][..k - 1];
      assert contacts[1..][k - 1..] == contacts[k..];
    }
  }

  /** The contact stage comes to the user of the first contact that names a member before any other member. */
  lemma ContactIs(users: seq<User>, contacts: seq<Contact>, org: Id, k: nat, j: nat) returns (n: nat)
    requires DistinctIds(users) && ContactMember(users, contacts, org, k, j)
    ensures var ids := ContactUserIds(contacts, org);
      && n < |ids| && Get(users, ids[n]) == Some(users[j]) && Member(users[j], contacts, org)
      && forall i :: 0 <= i < n ==> !Qualifies(Get(users, ids[i]), contacts, org)
  {
    hide First, Member;
    var ids, before := ContactUserIds(contacts, org), ContactUserIds(contacts[..k], org);
    IdsSplit(contacts, org, k);
    n := |before|;
    assert contacts[k..][0] == contacts[k];
    assert ids[n] == users[j].id && ids[..n] == before;
    assert users[j] in users;
    GetFinds(users, users[j]);
    forall i | 0 <= i < n ensures !Qualifies(Get(users, ids[i]), contacts, org) {
      assert ids[i] in before;
      assert HasActiveContact(contacts[..k], ids[i], org);
      var c :| c in contacts[..k] && c.org == org && c.user == Some(ids[i]) && c.active;
      var m :| 0 <= m < k && contacts[m] == c;
      if Get(users, ids[i]).Some? {
        var r := GetRow(users, ids[i]);
        assert users[r] in users && NamesActiveUser(contacts[m], org);
      }
    }
  }

  /** The first qualifying candidate is the one the tables put first. */
  lemma ChosenInOrder(users: seq<User>, contacts: seq<Contact>, org: Id, preferred: Option<string>, u: User)
    requires DistinctIds(users) && Chosen(Candidates(users, contacts, org, preferred), contacts, org, u)
    ensures InOrder(users, contacts, org, preferred, u)
  {
    hide First, Candidates, PreferredUser, PrimaryUser, PreferredRow, PrimaryMember, DirectRow, ContactMember, Member,
         DistinctIds, Get;
    var cs := Candidates(users, contacts, org, preferred);
    CandidatesAre(users, contacts, org, preferred);
    PreferredIs(users, preferred);
    PrimaryIs(users, contacts, org);
    DirectIs(users, org);
    var k :| 0 <= k < |cs| && cs[k] == Some(u) && Member(u, contacts, org) && forall j :: 0 <= j < k ==> !Qualifies(cs[j], contacts, org);
    assert Qualifies(cs[k], contacts, org);
    forall i: nat | PreferredRow(users, preferred, i) && Member(users[i], contacts, org) ensures u == users[i] {
      assert Qualifies(cs[0], contacts, org);
    }
    if NoPreferred(users, contacts, org, preferred) {
      assert !Qualifies(cs[0], contacts, org);
      forall c: nat, j: nat | PrimaryMember(users, contacts, org, c, j) ensures u == users[j] {
        PrimaryIsMember(users, contacts, org, c, j);
        assert Qualifies(cs[1], contacts, org);
      }
      if NoPrimary(users, contacts, org) {
        assert !Qualifies(cs[1], contacts, org);
        forall i: nat | DirectRow(users, org, i) ensures u == users[i] {
          DirectRowIsMember(users, contacts, org, i);
          assert Qualifies(cs[2], contacts, org);
        }
        if NoDirect(users, org) {
          assert !Qualifies(cs[2], contacts, org);
          forall c: nat, j: nat | ContactMember(users, contacts, org, c, j) ensures u == users[j] {
            ContactComes(users, contacts, org, preferred, c, j, u);
          }
        }
      }
    }
  }

  lemma ContactComes(users: seq<User>, contacts: seq<Contact>, org: Id, preferred: Option<string>, c: nat, j: nat, u: User)
    requires DistinctIds(users) && ContactMember(users, contacts, org, c, j)
    requires var cs := Candidates(users, contacts, org, preferred);
      Chosen(cs, contacts, org, u) && |cs| >= 3 && forall i :: 0 <= i < 3 ==> !Qualifies(cs[i], contacts, org)
    ensures u == users[j]
  {
    hide First, Get, ContactUserIds, Candidates, Chosen, ContactMember, Member, PreferredUser, PrimaryUser, DistinctIds, DirectMember;
    var cs, ids := Candidates(users, contacts, org, preferred), ContactUserIds(contacts, org);
    CandidatesAre(users, contacts, org, preferred);
    var n := ContactIs(users, contacts, org, c, j);
    assert cs[n + 3] == Some(users[j]) && Qualifies(cs[n + 3], contacts, org);
    forall i | 3 <= i < n + 3 ensures !Qualifies(cs[i], contacts, org) {
      assert cs[(i - 3) + 3] == Get(users, ids[i - 3]);
    }
    ChosenAt(users, contacts, org, cs, n + 3);
    ChosenOnce(cs, contacts, org, u, users[j]);
  }

  lemma PrimaryIsMember(users: seq<User>, contacts: seq<Contact>, org: Id, k: nat, j: nat)
    requires PrimaryMember(users, contacts, org, k, j)
    ensures j < |users| && Member(users[j], contacts, org)
  {
  }

  lemma DirectRowIsMember(users: seq<User>, contacts: seq<Contact>, org: Id, i: nat)
    requires DirectRow(users, org, i)
    ensures i < |users| && Member(users[i], contacts, org)
  {
  }

  /** The search returns a user exactly when the tables hold an active B2B customer linked to the organization directly or
      by an active contact; it returns such a user, the first in the order of preference. */
  method ResolveOrgB2bCustomer(users: seq<User>, contacts: seq<Contact>, org: Id, preferred: Option<string>)
    returns (r: Result<User, Unresolved>)
    requires DistinctIds(users)
    ensures r.Ok? ==> r.value in users && r.value.b2b && r.value.active
    ensures r.Ok? && r.value.org != Some(org) ==> exists c :: c in contacts && c.org == org && c.user == Some(r.value.id) && c.active
    ensures r.Err? ==> forall u :: u in users && u.b2b && u.active ==>
      u.org != Some(org) && forall c :: c in contacts && c.org == org && c.user == Some(u.id) ==> !c.active
    ensures r.Err? ==> r.error == NoActiveB2bUser(org)
    ensures r.Ok? ==> InOrder(users, contacts, org, preferred, r.value)
    ensures r.Ok? <==> SomeMember(users, contacts, org)
    ensures r.Ok? ==> Chosen(Candidates(users, contacts, org, preferred), contacts, org, r.value)
  {
    hide InOrder, Candidates, ContactUserIds, ContactUsers, Chosen, SomeMember, Member, First, Get, PreferredUser, PrimaryUser, DirectMember, DistinctIds;
    ghost var candidates := Candidates(users, contacts, org, preferred);
    CandidatesAre(users, contacts, org, preferred);
    var wanted := PreferredUser(users, preferred);
    if wanted.Some? && Member(wanted.value, contacts, org) {
      Answers(users, contacts, org, preferred, 0);
      return Ok(wanted.value);
    }
    var primary := PrimaryUser(users, contacts, org);
    if primary.Some? && Member(primary.value, contacts, org) {
      Answers(users, contacts, org, preferred, 1);
      return Ok(primary.value);
    }
    var direct := First(users, (u: User) => DirectMember(u, org));
    if direct.Some? {
      DirectIsMember(direct.value, contacts, org);
      Answers(users, contacts, org, preferred, 2);
      return Ok(direct.value);
    }
    var ids := ContactUserIds(contacts, org);
    for i := 0 to |ids|
      invariant forall j :: 0 <= j < i + 3 ==> !Qualifies(candidates[j], contacts, org)
    {
      var user := Get(users, ids[i]);
      assert candidates[i + 3] == user;
      if user.Some? && Member(user.value, contacts, org) {
        Answers(users, contacts, org, preferred, i + 3);
        return Ok(user.value);
      }
    }
    if SomeMember(users, contacts, org) {
      MembersAreCandidates(users, contacts, org, preferred);
      assert false;
    }
    NobodyIsMember(users, contacts, org);
    r := Err(NoActiveB2bUser(org));
  }

  /** The first qualifying candidate answers the search. */
  lemma Answers(users: seq<User>, contacts: seq<Contact>, org: Id, preferred: Option<string>, k: nat)
    requires DistinctIds(users)
    requires k < |Candidates(users, contacts, org, preferred)| && Qualifies(Candidates(users, contacts, org, preferred)[k], contacts, org)
    requires forall j :: 0 <= j < k ==> !Qualifies(Candidates(users, contacts, org, preferred)[j], contacts, org)
    ensures var u := Candidates(users, contacts, org, preferred)[k].value;
      && u in users && u.b2b && u.active && SomeMember(users, contacts, org)
      && (u.org != Some(org) ==> exists c :: c in contacts && c.org == org && c.user == Some(u.id) && c.active)
      && Chosen(Candidates(users, contacts, org, preferred), contacts, org, u) && InOrder(users, contacts, org, preferred, u)
  {
    hide Candidates, Chosen, SomeMember, InOrder;
    CandidatesAre(users, contacts, org, preferred);
    var cs := Candidates(users, contacts, org, preferred);
    ChosenAt(users, contacts, org, cs, k);
    ChosenInOrder(users, contacts, org, preferred, cs[k].value);
  }

  lemma NobodyIsMember(users: seq<User>, contacts: seq<Contact>, org: Id)
    requires !SomeMember(users, contacts, org)
    ensures forall u :: u in users && u.b2b && u.active ==>
      u.org != Some(org) && forall c :: c in contacts && c.org == org && c.user == Some(u.id) ==> !c.active
  {
    forall u | u in users && u.b2b && u.active
      ensures u.org != Some(org) && forall c :: c in contacts && c.org == org && c.user == Some(u.id) ==> !c.active
    {
      assert !Member(u, contacts, org);
    }
  }

  lemma CandidatesAre(users: seq<User>, contacts: seq<Contact>, org: Id, preferred: Option<string>)
    ensures var cs, ids := Candidates(users, contacts, org, preferred), ContactUserIds(contacts, org);
      && |cs| == |ids| + 3
      && cs[0] == PreferredUser(users, preferred) && cs[1] == PrimaryUser(users, contacts, org)
      && cs[2] == First(users, (u: User) => DirectMember(u, org))
      && (forall i :: 0 <= i < |ids| ==> cs[i + 3] == Get(users, ids[i]))
      && (forall c :: c in cs && c.Some? ==> c.value in users)
  {
    hide First, ContactUserIds;
  }

  lemma DirectIsMember(u: User, contacts: seq<Contact>, org: Id)
    requires DirectMember(u, org)
    ensures Member(u, contacts, org)
  {
  }

  lemma ChosenAt(users: seq<User>, contacts: seq<Contact>, org: Id, candidates: seq<Option<User>>, k: nat)
    requires k < |candidates| && Qualifies(candidates[k], contacts, org)
    requires forall j :: 0 <= j < k ==> !Qualifies(candidates[j], contacts, org)
    requires forall c :: c in candidates && c.Some? ==> c.value in users
    ensures Chosen(candidates, contacts, org, candidates[k].value) && SomeMember(users, contacts, org)
    ensures candidates[k].value in users
  {
  }

  /** A member is always among the candidates: the first direct one if it is linked directly, itself if by a contact. */
  lemma MembersAreCandidates(users: seq<User>, contacts: seq<Contact>, org: Id, preferred: Option<string>)
    requires DistinctIds(users) && SomeMember(users, contacts, org)
    ensures exists c :: c in Candidates(users, contacts, org, preferred) && Qualifies(c, contacts, org)
  {
    hide First, ContactUserIds, Candidates;
    var cs, ids := Candidates(users, contacts, org, preferred), ContactUserIds(contacts, org);
    CandidatesAre(users, contacts, org, preferred);
    var u :| u in users && Member(u, contacts, org);
    if u.org == Some(org) {
      assert DirectMember(u, org);
      assert Qualifies(cs[2], contacts, org);
    } else {
      GetFinds(users, u);
      var j :| 0 <= j < |ids| && ids[j] == u.id;
      assert Qualifies(cs[j + 3], contacts, org);
    }
  }

  /** The unique constraint on emails compares exact spellings. */
  predicate DistinctEmails(users: seq<User>) {
    forall i, j :: 0 <= i < j < |users| ==> users[i].email != users[j].email
  }

  /** A user with the preferred email is the row the search tries first exactly when no earlier row has another spelling
      of that email. */
  lemma PreferredExactly(users: seq<User>, i: nat, preferred: string)
    requires DistinctIds(users) && i < |users| && preferred != "" && Lower(users[i].email) == Lower(preferred)
    ensures PreferredUser(users, Some(preferred)) == Some(users[i]) <==>
      forall j :: 0 <= j < i ==> Lower(users[j].email) != Lower(preferred)
  {
    hide Lower, First;
    var p := (u: User) => Lower(u.email) == Lower(preferred);
    assert PreferredUser(users, Some(preferred)) == First(users, p);
    FirstExactly(users, p, i);
  }

  // ---- When the preferred user is returned ----

  /** The search's answer is determined. */
  lemma ChosenOnce(candidates: seq<Option<User>>, contacts: seq<Contact>, org: Id, u: User, v: User)
    requires Chosen(candidates, contacts, org, u) && Chosen(candidates, contacts, org, v)
    ensures u == v
  {
    hide Member;
    var j :| 0 <= j < |candidates| && candidates[j] == Some(u) && Member(u, contacts, org)
      && forall i :: 0 <= i < j ==> !Qualifies(candidates[i], contacts, org);
    var k :| 0 <= k < |candidates| && candidates[k] == Some(v) && Member(v, contacts, org)
      && forall i :: 0 <= i < k ==> !Qualifies(candidates[i], contacts, org);
    assert Qualifies(candidates[j], contacts, org) && Qualifies(candidates[k], contacts, org);
  }

  lemma {:induction false} LeastQualifying(candidates: seq<Option<User>>, contacts: seq<Contact>, org: Id, n: nat) returns (k: nat)
    requires n < |candidates| && Qualifies(candidates[n], contacts, org)
    ensures k <= n && Qualifies(candidates[k], contacts, org) && forall j :: 0 <= j < k ==> !Qualifies(candidates[j], contacts, org)
  {
    hide Qualifies;
    if j :| 0 <= j < n && Qualifies(candidates[j], contacts, org) {
      k := LeastQualifying(candidates, contacts, org, j);
    } else {
      k := n;
    }
  }

  /** No earlier row has another spelling of the email. */
  predicate FirstSpelling(users: seq<User>, i: nat, preferred: string)
    requires i < |users|
  {
    forall j :: 0 <= j < i ==> Lower(users[j].email) != Lower(preferred)
  }

  /** No other row is an active B2B customer, of whatever organization. */
  predicate OnlyActiveB2b(users: seq<User>, i: nat)
    requires i < |users|
  {
    forall j :: 0 <= j < |users| && j != i ==> !(users[j].b2b && users[j].active)
  }

  ghost predicate AlwaysChosen(users: seq<User>, i: nat, preferred: string)
    requires i < |users|
  {
    forall contacts: seq<Contact>, org: Id :: Member(users[i], contacts, org) ==>
      Chosen(Candidates(users, contacts, org, Some(preferred)), contacts, org, users[i])
  }

  lemma FirstSpellingWins(users: seq<User>, i: nat, preferred: string, contacts: seq<Contact>, org: Id)
    requires DistinctIds(users) && i < |users| && preferred != "" && Lower(users[i].email) == Lower(preferred)
    requires FirstSpelling(users, i, preferred) && Member(users[i], contacts, org)
    ensures Chosen(Candidates(users, contacts, org, Some(preferred)), contacts, org, users[i])
  {
    hide Lower, Member, Candidates, PreferredUser, Chosen;
    CandidatesAre(users, contacts, org, Some(preferred));
    PreferredExactly(users, i, preferred);
    ChosenAt(users, contacts, org, Candidates(users, contacts, org, Some(preferred)), 0);
  }

  lemma OnlyOneWins(users: seq<User>, i: nat, preferred: string, contacts: seq<Contact>, org: Id)
    requires DistinctIds(users) && i < |users| && OnlyActiveB2b(users, i) && Member(users[i], contacts, org)
    ensures Chosen(Candidates(users, contacts, org, Some(preferred)), contacts, org, users[i])
  {
    hide Candidates, Chosen, First, HasActiveContact;
    var cs := Candidates(users, contacts, org, Some(preferred));
    assert users[i] in users;
    MembersAreCandidates(users, contacts, org, Some(preferred));
    CandidatesAre(users, contacts, org, Some(preferred));
    var n :| 0 <= n < |cs| && Qualifies(cs[n], contacts, org);
    var k := LeastQualifying(cs, contacts, org, n);
    ChosenAt(users, contacts, org, cs, k);
    var j :| 0 <= j < |users| && users[j] == cs[k].value;
    assert users[j].b2b && users[j].active;
  }

  /** With another spelling before it and another active customer, there are contacts under which the search returns
      someone else: that customer is the primary contact, the preferred user an ordinary one. */
  lemma SomebodyElseWins(users: seq<User>, i: nat, j: nat, preferred: string) returns (contacts: seq<Contact>, v: User)
    requires DistinctIds(users) && i < |users| && preferred != "" && !FirstSpelling(users, i, preferred)
    requires users[i].b2b && users[i].active
    requires j < |users| && j != i && users[j].b2b && users[j].active
    ensures Member(users[i], contacts, 0) && v != users[i]
    ensures Chosen(Candidates(users, contacts, 0, Some(preferred)), contacts, 0, v)
  {
    hide Lower, First, Candidates, Chosen, FirstSpelling, PreferredUser, PrimaryUser, Member;
    var primary, plain := Contact(0, Some(users[j].id), true, true), Contact(0, Some(users[i].id), false, true);
    contacts := [primary, plain];
    ContactMakesMember(users[i], contacts, plain);
    ContactMakesMember(users[j], contacts, primary);
    var cs := Candidates(users, contacts, 0, Some(preferred));
    CandidatesAre(users, contacts, 0, Some(preferred));
    FirstIsAnother(users, i, preferred);
    if Qualifies(cs[0], contacts, 0) {
      ChosenAt(users, contacts, 0, cs, 0);
      v := cs[0].value;
    } else {
      PrimaryIs(users, contacts, 0);
      assert PrimaryMember(users, contacts, 0, 0, j);
      ChosenAt(users, contacts, 0, cs, 1);
      v := users[j];
    }
  }

  lemma ContactMakesMember(u: User, contacts: seq<Contact>, c: Contact)
    requires c in contacts && c.user == Some(u.id) && c.active && u.b2b && u.active
    ensures Member(u, contacts, c.org)
  {
  }

  lemma FirstIsAnother(users: seq<User>, i: nat, preferred: string)
    requires DistinctIds(users) && i < |users| && preferred != "" && !FirstSpelling(users, i, preferred)
    ensures PreferredUser(users, Some(preferred)) != Some(users[i])
  {
    hide Lower, First;
    var p := (u: User) => Lower(u.email) == Lower(preferred);
    assert PreferredUser(users, Some(preferred)) == First(users, p);
    if p(users[i]) {
      FirstExactly(users, p, i);
    }
  }

  /** A preferred active B2B user is returned whenever it qualifies, under any contacts and for any organization, exactly
      when no earlier row has another spelling of its email or it is the only active B2B user there is. */
  lemma PreferredReturnedExactly(users: seq<User>, i: nat, preferred: string)
    requires DistinctIds(users) && i < |users| && preferred != "" && Lower(users[i].email) == Lower(preferred)
    requires users[i].b2b && users[i].active
    ensures AlwaysChosen(users, i, preferred) <==> FirstSpelling(users, i, preferred) || OnlyActiveB2b(users, i)
  {
    hide Lower, Member, Candidates, Chosen, FirstSpelling, DistinctIds;
    if FirstSpelling(users, i, preferred) || OnlyActiveB2b(users, i) {
      forall contacts: seq<Contact>, org: Id | Member(users[i], contacts, org)
        ensures Chosen(Candidates(users, contacts, org, Some(preferred)), contacts, org, users[i])
      {
        if FirstSpelling(users, i, preferred) {
          FirstSpellingWins(users, i, preferred, contacts, org);
        } else {
          OnlyOneWins(users, i, preferred, contacts, org);
        }
      }
    } else {
      var j :| 0 <= j < |users| && j != i && users[j].b2b && users[j].active;
      var contacts, v := SomebodyElseWins(users, i, j, preferred);
      if AlwaysChosen(users, i, preferred) {
        ChosenOnce(Candidates(users, contacts, 0, Some(preferred)), contacts, 0, v, users[i]);
      }
    }
  }

  /** The constraint on exact spellings is not enough: two members of the organization share the email up to case, and the
      search for "a" returns "A". */
  lemma TwoSpellings()
    ensures var a, u := User(0, "A", true, true, Some(0)), User(1, "a", true, true, Some(0));
      && DistinctIds([a, u]) && DistinctEmails([a, u]) && Member(u, [], 0)
      && Chosen(Candidates([a, u], [], 0, Some("a")), [], 0, a) && !Chosen(Candidates([a, u], [], 0, Some("a")), [], 0, u)
  {
    hide Candidates, Chosen, First;
    var a, u := User(0, "A", true, true, Some(0)), User(1, "a", true, true, Some(0));
    var users := [a, u];
    assert Lower("A") == "a" && Lower("a") == "a";
    FirstSpellingWins(users, 0, "a", [], 0);
    if Chosen(Candidates(users, [], 0, Some("a")), [], 0, u) {
      ChosenOnce(Candidates(users, [], 0, Some("a")), [], 0, a, u);
    }
  }
}
