/** An owner command with nobody else about: the checks in the order the code makes them, and what they amount to on
the tables. */
module OwnerAlone {
  import opened Options
  import opened OwnerTransactions
  import opened OwnerAuthority
  import opened OwnerIsolation
  import opened OwnerCommits
  import opened OwnerColumns

  /** The rows a query finds. */
  function Finds(db: Rows, c: Command, m: Option<Found>, q: Query): Rows {
    map id | id in Candidates(db, c, m, q) && id in db :: db[id]
  }

  /** The tables give the command what it asks for, at an instant. */
  ghost predicate GrantedOn(policy: Policy, c: Command, db: Rows, now: int) {
    && c.wellFormed
    && (exists m :: OnlyMember(c, db, m) && StandsFor(policy, c, db, m))
    && (c.requireBase ==> BaseAccess(c, db, now))
  }

  lemma FindsOnlyMember(c: Command, db: Rows, m: Found)
    ensures OnlyMember(c, db, m) <==> Finds(db, c, None, Member) == map[m.id := m.row]
  {
    var rows := Finds(db, c, None, Member);
    FindsMatching(db, c, None, Member);
    forall id | id in db ensures Matches(c, None, Member, id, db[id]) <==> IsMember(c, db[id]) {
      MatchesInColumns(c, None, id, db[id]);
    }
    if OnlyMember(c, db, m) { assert rows.Keys == {m.id}; }
    if rows == map[m.id := m.row] { assert m.id in rows; }
  }

  /** The rows the policy reads are those of the tables. */
  lemma FindsPolicyRows(c: Command, db: Rows, m: Found)
    ensures Finds(db, c, Some(m), Assigned) == AssignmentRows(c, db, m)
    ensures Finds(db, c, Some(m), RoleDef) == RoleRows(c, db, m)
    ensures Finds(db, c, Some(m), Grants) == GrantRows(db, m)
  {
    forall id | id in db
      ensures Matches(c, Some(m), Assigned, id, db[id]) <==> IsAssignment(c, m, db[id])
      ensures Matches(c, Some(m), RoleDef, id, db[id]) <==> IsRole(c, m, id, db[id])
      ensures Matches(c, Some(m), Grants, id, db[id]) <==> IsGrant(m, db[id])
    {
      MatchesInColumns(c, Some(m), id, db[id]);
    }
  }

  // ----- what the queries find -----

  lemma FindsMatching(db: Rows, c: Command, m: Option<Found>, q: Query)
    ensures forall id :: id in Finds(db, c, m, q) ==> id in db && Finds(db, c, m, q)[id] == db[id] && Matches(c, m, q, id, db[id])
    ensures q != Links ==> forall id :: id in db && Matches(c, m, q, id, db[id]) ==> id in Finds(db, c, m, q)
  {
  }

  lemma FindsOne(db: Rows, c: Command, m: Option<Found>, q: Query, id: Id, row: Row)
    requires q != Links && forall i, r :: Matches(c, m, q, i, r) <==> i == id && r == row
    ensures |Finds(db, c, m, q)| == 1 <==> id in db && db[id] == row
  {
    FindsMatching(db, c, m, q);
    var rows := Finds(db, c, m, q);
    if id in db && db[id] == row {
      assert Matches(c, m, q, id, db[id]);
      assert rows.Keys == {id};
      assert |rows.Keys| == 1;
    } else {
      assert rows.Keys == {};
      assert |rows.Keys| == 0;
    }
  }

  lemma FindsLinks(db: Rows, c: Command, m: Option<Found>)
    ensures Paired(c, Finds(db, c, m, Links)) <==> Paired(c, db)
  {
    var matching := map id | id in db && Matches(c, m, Links, id, db[id]) :: db[id];
    if Paired(c, db) {
      var i :| i in db && CatalogLink(c, db[i]);
      var j :| j in db && PmsLink(c, db[j]);
      assert i in matching && j in matching;
      assert Finds(db, c, m, Links) == matching;
    }
  }

  lemma FindsBase(db: Rows, c: Command, m: Option<Found>)
    ensures Finds(db, c, m, Base) == BaseRows(db, c)
  {
    forall id | id in db ensures Matches(c, m, Base, id, db[id]) <==> IsBase(c, db[id]) { MatchesInColumns(c, m, id, db[id]); }
  }

  /** Only what comes after the membership depends on it. */
  lemma FindsBefore(db: Rows, c: Command, m: Option<Found>, m': Option<Found>, q: Query)
    requires Rank(q) <= 2 || Rank(q) >= 6
    ensures Finds(db, c, m, q) == Finds(db, c, m', q)
  {
    assert forall id, row :: Matches(c, m, q, id, row) == Matches(c, m', q, id, row);
    assert Candidates(db, c, m, q) == Candidates(db, c, m', q);
  }

  // ----- the code's own order -----

  /** The organization and both owner links are as the scope wants them. */
  predicate ScopeOn(c: Command, db: Rows) {
    c.wellFormed && c.organization in db && db[c.organization] == Organization(HotelGroup, Active) && OwnerLinks(c, db)
  }

  /** `lockHotelSetupOrdinaryPropertyScope`. */
  method LockScope(c: Command, db: Rows) returns (ok: bool)
    ensures ok <==> ScopeOn(c, db)
  {
    if !c.wellFormed { return false; }
    var organization := Finds(db, c, None, Org);
    FindsOne(db, c, None, Org, c.organization, Organization(HotelGroup, Active));
    if |organization| != 1 { return false; }
    var links := Finds(db, c, None, Links);
    FindsLinks(db, c, None);
    LinksInColumns(c, db);
    ok := Paired(c, links);
  }

  function Permissions(policy: Policy, c: Command, db: Rows, m: Found): Option<set<Permission>> {
    policy.permissions(m, AssignmentRows(c, db, m), RoleRows(c, db, m), GrantRows(db, m))
  }

  /** The user's one active membership, when its role resolves and the user is active. */
  ghost predicate MemberOn(policy: Policy, c: Command, db: Rows, m: Found) {
    OnlyMember(c, db, m) && Permissions(policy, c, db, m).Some? && c.user in db && db[c.user] == User(Active)
  }

  /** `lockHotelSetupMembership`. */
  method LockMembership(policy: Policy, c: Command, db: Rows) returns (member: Option<Found>)
    ensures member.Some? ==> MemberOn(policy, c, db, member.value)
    ensures member.None? ==> forall m :: !MemberOn(policy, c, db, m)
  {
    var members := Finds(db, c, None, Member);
    if |members| != 1 { NoOnlyMember(c, db); return None; }
    SoleOf(members);
    var id :| id in members;
    var m := Found(id, members[id]);
    FindsOnlyMember(c, db, m);
    OneOnlyMember(c, db, m);
    var assignments := Finds(db, c, Some(m), Assigned);
    var definitions := Finds(db, c, Some(m), RoleDef);
    var grants := Finds(db, c, Some(m), Grants);
    FindsPolicyRows(c, db, m);
    var resolved := policy.permissions(m, assignments, definitions, grants);
    if resolved.None? { return None; }
    var actor := Finds(db, c, Some(m), Actor);
    FindsOne(db, c, Some(m), Actor, c.user, User(Active));
    member := if |actor| != 1 then None else Some(m);
  }

  /** What the membership may do covers the property and the permission. */
  predicate Covers(policy: Policy, c: Command, db: Rows, m: Found) {
    && m.row.Membership? && m.row.pms
    && c.property in policy.properties(m, AssignmentRows(c, db, m), RoleRows(c, db, m))
    && Permissions(policy, c, db, m).Some?
    && MayUse(Permissions(policy, c, db, m).value, c.permission, m.row)
  }

  ghost predicate SomeMemberMay(policy: Policy, c: Command, db: Rows) {
    exists m :: MemberOn(policy, c, db, m) && Covers(policy, c, db, m)
  }

  /** `lockHotelSetupCurrencyMembership`; `now` is the clock it reads last. */
  method LockCurrencyMembership(policy: Policy, c: Command, db: Rows, now: int) returns (granted: bool)
    ensures granted <==>
              SomeMemberMay(policy, c, db) && (c.requireBase ==> BaseAccess(c, db, now))
    ensures c.requireBase && AllExpired(c, db, now) ==> !granted
  {
    var member := LockMembership(policy, c, db);
    if member.None? { return false; }
    var m := member.value;
    OneOnlyMember(c, db, m);
    OnlyMemberRow(c, db, m);
    if !m.row.pms { return false; }
    FindsPolicyRows(c, db, m);
    GrantedInColumns(Permissions(policy, c, db, m).value, c.permission, m.row);
    if c.property !in policy.properties(m, Finds(db, c, Some(m), Assigned), Finds(db, c, Some(m), RoleDef)) { return false; }
    if c.permission !in Granted(Permissions(policy, c, db, m).value, m.row) { return false; }
    assert Covers(policy, c, db, m);
    if !c.requireBase { return true; }
    var entitlements := Finds(db, c, Some(m), Base);
    FindsBase(db, c, Some(m));
    BaseInColumns(db, c, now);
    granted := Entitled(entitlements, now);
  }

  lemma OnlyMemberRow(c: Command, db: Rows, m: Found)
    requires OnlyMember(c, db, m)
    ensures m.id in db && db[m.id] == m.row && IsMember(c, m.row)
  {
  }

  /** The membership's rows on the tables give the command its authority. */
  ghost predicate StandsFor(policy: Policy, c: Command, db: Rows, m: Found) {
    Stands(policy, c, db, m, AssignmentRows(c, db, m), RoleRows(c, db, m), GrantRows(db, m))
  }

  lemma PartsStand(policy: Policy, c: Command, db: Rows, m: Found)
    requires ScopeOn(c, db) && MemberOn(policy, c, db, m) && Covers(policy, c, db, m)
    ensures OnlyMember(c, db, m) && StandsFor(policy, c, db, m)
  {
  }

  lemma StandingHasParts(policy: Policy, c: Command, db: Rows, m: Found)
    requires c.wellFormed && OnlyMember(c, db, m) && StandsFor(policy, c, db, m)
    ensures ScopeOn(c, db) && MemberOn(policy, c, db, m) && Covers(policy, c, db, m)
  {
  }

  /** A command alone: granted exactly when the tables give it its authority. */
  method Authorize(policy: Policy, c: Command, db: Rows, now: int) returns (granted: bool)
    ensures granted <==> GrantedOn(policy, c, db, now)
  {
    granted := LockScope(c, db);
    if granted { granted := LockCurrencyMembership(policy, c, db, now); }
    GrantedIsItsParts(policy, c, db, now);
  }

  /** The scope, the membership and the entitlements together are the command's authority on the tables. */
  lemma GrantedIsItsParts(policy: Policy, c: Command, db: Rows, now: int)
    ensures GrantedOn(policy, c, db, now)
       <==> ScopeOn(c, db) && SomeMemberMay(policy, c, db) && (c.requireBase ==> BaseAccess(c, db, now))
  {
    if ScopeOn(c, db) {
      if m :| MemberOn(policy, c, db, m) && Covers(policy, c, db, m) { PartsStand(policy, c, db, m); }
    }
    if GrantedOn(policy, c, db, now) {
      var m :| OnlyMember(c, db, m) && StandsFor(policy, c, db, m);
      StandingHasParts(policy, c, db, m);
    }
  }

  lemma NoOnlyMember(c: Command, db: Rows)
    requires |Finds(db, c, None, Member)| != 1
    ensures forall m :: !OnlyMember(c, db, m)
  {
    forall m ensures !OnlyMember(c, db, m) { FindsOnlyMember(c, db, m); }
  }

  lemma OneOnlyMember(c: Command, db: Rows, m: Found)
    requires OnlyMember(c, db, m)
    ensures forall m' :: OnlyMember(c, db, m') ==> m' == m
  {
  }
}
