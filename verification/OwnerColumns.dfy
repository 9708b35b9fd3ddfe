/** What an owner command's authority is, in the columns of the tables. */
module OwnerColumns {
  import opened Options
  import opened OwnerTransactions

  /** An active owner link of the organization to the property in a product. */
  predicate IsOwnerLink(c: Command, row: Row, product: Product, resourceType: ResourceType) {
    && row.Link? && row.organization == c.organization && row.relationship == Owner && row.status == Active
    && row.resource.product == product && row.resource.resourceType == resourceType && row.resource.id == c.property
  }

  predicate OwnerLinks(c: Command, db: Rows) {
    && (exists id :: id in db && IsOwnerLink(c, db[id], HotelCatalog, Property))
    && (exists id :: id in db && IsOwnerLink(c, db[id], Pms, PmsProperty))
  }

  /** An active membership of the user in the organization. */
  predicate IsMember(c: Command, row: Row) {
    row.Membership? && row.organization == c.organization && row.user == c.user && row.status == Active
  }

  /** The user's one active membership. */
  ghost predicate OnlyMember(c: Command, db: Rows, m: Found) {
    && m.id in db && db[m.id] == m.row && IsMember(c, m.row)
    && (forall id :: id in db && IsMember(c, db[id]) ==> id == m.id)
  }

  predicate IsAssignment(c: Command, m: Found, row: Row) {
    row.Assignment? && row.membership == m.id && row.property == c.property
  }

  predicate IsRole(c: Command, m: Found, id: Id, row: Row) {
    && row.Role? && row.organization == c.organization && m.row.Membership? && m.row.roleDefinition.Some?
    && m.row.roleDefinition.value == id
  }

  predicate IsGrant(m: Found, row: Row) {
    row.Grant? && row.organizationKind == HotelGroup && m.row.Membership? && row.roleKey == m.row.roleKey
  }

  function AssignmentRows(c: Command, db: Rows, m: Found): Rows { map id | id in db && IsAssignment(c, m, db[id]) :: db[id] }
  function RoleRows(c: Command, db: Rows, m: Found): Rows { map id | id in db && IsRole(c, m, id, db[id]) :: db[id] }
  function GrantRows(db: Rows, m: Found): Rows { map id | id in db && IsGrant(m, db[id]) :: db[id] }

  /** A resolved permission that is not of a product the membership has no access to. */
  predicate MayUse(perms: set<Permission>, p: Permission, member: Row) {
    && p in perms && member.Membership?
    && (p.product == Pms ==> member.pms) && (p.product == Booking ==> member.booking)
  }

  /** A base entitlement of the organization, for all its properties or for this one. */
  predicate IsBase(c: Command, row: Row) {
    && row.Entitlement? && row.scope.organization == c.organization && row.scope.product == Pms
    && (row.scope.key == PropertyManagement || row.scope.key == PmsCore || row.scope.key == AccountAccess)
    && (row.scope.resource.None?
        || (row.scope.resource.value.product == Pms && row.scope.resource.value.resourceType == PmsProperty
            && row.scope.resource.value.id == c.property))
  }

  /** Started, and not past its expiry. */
  predicate InForce(row: Row, at: int) {
    && row.Entitlement?
    && (row.startsAt.None? || row.startsAt.value <= at)
    && (row.expiresAt.None? || row.expiresAt.value > at)
  }

  /** Base access at an instant: some base entitlement in force is active and none in force is suspended. */
  predicate BaseAccess(c: Command, db: Rows, at: int) {
    && (forall id :: id in db && IsBase(c, db[id]) && InForce(db[id], at) ==> db[id].status != Suspended)
    && (exists id :: id in db && IsBase(c, db[id]) && InForce(db[id], at) && db[id].status == Active)
  }

  /** Every base entitlement has expired. */
  predicate AllExpired(c: Command, db: Rows, at: int) {
    forall id :: id in db && IsBase(c, db[id]) ==> db[id].expiresAt.Some? && db[id].expiresAt.value <= at
  }

  // ----- the queries, in columns -----

  lemma LinksInColumns(c: Command, rows: Rows)
    ensures Paired(c, rows) <==> OwnerLinks(c, rows)
  {
    forall id | id in rows
      ensures CatalogLink(c, rows[id]) <==> IsOwnerLink(c, rows[id], HotelCatalog, Property)
      ensures PmsLink(c, rows[id]) <==> IsOwnerLink(c, rows[id], Pms, PmsProperty)
    {
    }
  }

  lemma MatchesInColumns(c: Command, m: Option<Found>, id: Id, row: Row)
    ensures Matches(c, m, Org, id, row) <==> id == c.organization && row == Organization(HotelGroup, Active)
    ensures Matches(c, m, Member, id, row) <==> IsMember(c, row)
    ensures m.Some? ==> (Matches(c, m, Assigned, id, row) <==> IsAssignment(c, m.value, row))
    ensures m.Some? ==> (Matches(c, m, RoleDef, id, row) <==> IsRole(c, m.value, id, row))
    ensures m.Some? ==> (Matches(c, m, Grants, id, row) <==> IsGrant(m.value, row))
    ensures Matches(c, m, Actor, id, row) <==> id == c.user && row == User(Active)
    ensures Matches(c, m, Base, id, row) <==> IsBase(c, row)
  {
  }

  lemma GrantedInColumns(perms: set<Permission>, p: Permission, member: Row)
    requires member.Membership?
    ensures p in Granted(perms, member) <==> MayUse(perms, p, member)
  {
  }

  predicate SuspendedIn(rows: Rows, at: int) { exists id :: id in rows && InForce(rows[id], at) && rows[id].status == Suspended }

  predicate ActiveIn(rows: Rows, at: int) { exists id :: id in rows && InForce(rows[id], at) && rows[id].status == Active }

  /** What the code makes of a row's dates and status. */
  lemma StatusInColumns(row: Row, at: int)
    requires row.Entitlement?
    ensures Started(row, at) && StatusAt(row, at) == Suspended <==> InForce(row, at) && row.status == Suspended
    ensures Started(row, at) && StatusAt(row, at) == Active <==> InForce(row, at) && row.status == Active
  {
  }

  /** The entitlement mapping decides on the rows' own columns. */
  lemma EntitledInColumns(rows: Rows, at: int)
    ensures Entitled(rows, at) <==> !SuspendedIn(rows, at) && ActiveIn(rows, at)
  {
    forall id | id in rows && rows[id].Entitlement?
      ensures Started(rows[id], at) && StatusAt(rows[id], at) == Suspended <==> InForce(rows[id], at) && rows[id].status == Suspended
      ensures Started(rows[id], at) && StatusAt(rows[id], at) == Active <==> InForce(rows[id], at) && rows[id].status == Active
    {
      StatusInColumns(rows[id], at);
    }
  }
}
