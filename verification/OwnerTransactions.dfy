/** Owner write transactions (apps/api/src/hotelSetupOrdinaryScope.ts, hotelSetupMembership.ts and
hotelSetupCurrencyMembership.ts) on a table of committed rows and a table of row locks, in the terms of "Row-Level
Locks", section 13.3.2 of the PostgreSQL manual, at READ COMMITTED. Any number of owner commands and of other
transactions take turns, one row lock at a time. */
module OwnerTransactions {
  import opened Options

  type Id = nat
  type Txn = nat

  // The texts the queries compare with; every other text of a column is one of the rest.
  datatype Kind = HotelGroup | OtherKind(name: nat)
  datatype Status = Active | Suspended | Expired | OtherStatus(name: nat)
  datatype Product = Pms | Booking | HotelCatalog | OtherProduct(name: nat)
  datatype ResourceType = Property | PmsProperty | OtherType(name: nat)
  datatype Relationship = Owner | OtherRelationship(name: nat)
  datatype EntitlementKey = PropertyManagement | PmsCore | AccountAccess | OtherKey(name: nat)

  /** A permission key: the product its text starts with, and the rest. */
  datatype Permission = Permission(product: Product, name: nat)

  datatype Resource = Resource(product: Product, resourceType: ResourceType, id: Id)

  datatype Scope = Scope(organization: Id, product: Product, key: EntitlementKey, resource: Option<Resource>)

  datatype Row =
    | Organization(kind: Kind, status: Status)
    | Link(organization: Id, resource: Resource, relationship: Relationship, status: Status)
    | Membership(organization: Id, user: Id, status: Status, roleKey: nat, roleDefinition: Option<Id>, pms: bool,
                 booking: bool, access: nat)  // access: mode, origin and overrides, read by the policy alone
    | Assignment(membership: Id, property: Id)
    | Role(organization: Id, definition: nat)
    | Grant(organizationKind: Kind, roleKey: nat, permission: Permission)
    | User(status: Status)
    | Entitlement(scope: Scope, status: Status, startsAt: Option<int>, expiresAt: Option<int>)
    | Record(content: nat)  // a row of any other table

  type Rows = map<Id, Row>

  datatype Mode = KeyShare | Share | NoKeyUpdate | Update

  /** The conflict table of section 13.3.2. */
  predicate Conflict(a: Mode, b: Mode) {
    a == Update || b == Update || (a != KeyShare && b != KeyShare && (a == NoKeyUpdate || b == NoKeyUpdate))
  }

  /** Which modes a mode waits for, row by row of that table. */
  lemma ConflictTable(held: Mode)
    ensures Conflict(KeyShare, held) <==> held == Update
    ensures Conflict(Share, held) <==> held == NoKeyUpdate || held == Update
    ensures Conflict(NoKeyUpdate, held) <==> held == Share || held == NoKeyUpdate || held == Update
    ensures Conflict(Update, held)
  {
  }

  datatype Lock = Lock(row: Id, holder: Txn, mode: Mode)

  /** What the command asks for. `wellFormed`: both ids have the form of a UUID. */
  datatype Command = Command(organization: Id, property: Id, user: Id, permission: Permission, requireBase: bool,
                             wellFormed: bool)

  /** The locking reads, in the order they are sent. */
  datatype Query = Org | Links | Member | Assigned | RoleDef | Grants | Actor | Base

  datatype Phase =
    | Asking(q: Query)
    | Locking(q: Query, todo: set<Id>)  // the statement has its snapshot; these rows are still to be locked
    | Timing                            // every lock is held; the clock is read next
    | Working                           // authority was granted
    | Denied

  datatype Found = Found(id: Id, row: Row)

  /** One open transaction; `command` is None for a transaction of any other kind.
  `read` holds the rows each locking read returned, `children` the organization's rows when its lock was taken, and
  `since` how many commits there had been when its latest query took its snapshot. */
  datatype Open = Open(command: Option<Command>, phase: Phase, read: map<Query, Rows>, member: Option<Found>,
                       at: int, writes: map<Id, Option<Row>>, children: set<Id>, since: nat)

  /** A commit gave an entitlement that was there before other scope columns. */
  datatype Move = Move(id: Id, to: Scope)

  datatype Ending = Committed(txn: Txn, writes: map<Id, Option<Row>>) | RolledBack(txn: Txn, denied: bool)

  datatype Mark = Entered(txn: Txn, organization: Id) | Left(txn: Txn, organization: Id)

  /** The rules of the authorization package, which may be any functions of the rows read. */
  datatype Policy = Policy(
    permissions: (Found, Rows, Rows, Rows) -> Option<set<Permission>>,  // membership, assignments, role, grants
    properties: (Found, Rows, Rows) -> set<Id>)                    // membership, assignments, role

  datatype State = State(db: Rows, locks: set<Lock>, open: map<Txn, Open>, used: set<Txn>, now: int,
                         log: seq<Ending>, trace: seq<Mark>, moves: seq<set<Move>>)

  // ----- the queries -----

  predicate OwnerLink(c: Command, row: Row, product: Product, resourceType: ResourceType) {
    row == Link(c.organization, Resource(product, resourceType, c.property), Owner, Active)
  }

  predicate CatalogLink(c: Command, row: Row) { OwnerLink(c, row, HotelCatalog, Property) }
  predicate PmsLink(c: Command, row: Row) { OwnerLink(c, row, Pms, PmsProperty) }

  predicate BaseScope(c: Command, scope: Scope) {
    && scope.organization == c.organization && scope.product == Pms
    && !scope.key.OtherKey?
    && (scope.resource.None? || scope.resource.value == Resource(Pms, PmsProperty, c.property))
  }

  /** The WHERE clause of a query for one row. */
  predicate Matches(c: Command, m: Option<Found>, q: Query, id: Id, row: Row) {
    match q
    case Org => id == c.organization && row == Organization(HotelGroup, Active)
    case Links => CatalogLink(c, row) || PmsLink(c, row)
    case Member => row.Membership? && row.organization == c.organization && row.user == c.user && row.status == Active
    case Assigned => m.Some? && row == Assignment(m.value.id, c.property)
    case RoleDef => m.Some? && m.value.row.Membership? && m.value.row.roleDefinition == Some(id)
                    && row.Role? && row.organization == c.organization
    case Grants => m.Some? && m.value.row.Membership? && row.Grant? && row.organizationKind == HotelGroup
                   && row.roleKey == m.value.row.roleKey
    case Actor => id == c.user && row == User(Active)
    case Base => row.Entitlement? && BaseScope(c, row.scope)
  }

  function ModeOf(q: Query): Mode { if q == Org then Update else Share }

  predicate Paired(c: Command, rows: Rows) {
    (exists id :: id in rows && CatalogLink(c, rows[id])) && (exists id :: id in rows && PmsLink(c, rows[id]))
  }

  /** The rows a statement's snapshot offers; the links are a join, empty without both sides. */
  function Candidates(db: Rows, c: Command, m: Option<Found>, q: Query): set<Id> {
    var matching := map id | id in db && Matches(c, m, q, id, db[id]) :: db[id];
    if q == Links && !Paired(c, matching) then {} else matching.Keys
  }

  /** The resolved permissions, without those of a product the membership has no access to. */
  function Granted(perms: set<Permission>, member: Row): set<Permission>
    requires member.Membership?
  {
    set p | p in perms && (p.product != Pms || member.pms) && (p.product != Booking || member.booking)
  }

  function RowsOf(x: Open, q: Query): Rows { if q in x.read then x.read[q] else map[] }

  predicate MemberResolved(policy: Policy, x: Open) {
    x.member.Some? && x.member.value.row.Membership?
    && policy.permissions(x.member.value, RowsOf(x, Assigned), RowsOf(x, RoleDef), RowsOf(x, Grants)).Some?
  }

  predicate MemberMay(policy: Policy, c: Command, x: Open) {
    && MemberResolved(policy, x)
    && x.member.value.row.pms
    && c.property in policy.properties(x.member.value, RowsOf(x, Assigned), RowsOf(x, RoleDef))
    && c.permission in Granted(
         policy.permissions(x.member.value, RowsOf(x, Assigned), RowsOf(x, RoleDef), RowsOf(x, Grants)).value,
         x.member.value.row)
  }

  /** What must hold once a query has answered, for the command to go on. */
  predicate Passes(policy: Policy, c: Command, x: Open, q: Query) {
    match q
    case Org => |RowsOf(x, Org)| == 1
    case Links => Paired(c, RowsOf(x, Links))
    case Member => |RowsOf(x, Member)| == 1
    case Assigned => true
    case RoleDef => true
    case Grants => MemberResolved(policy, x)
    case Actor => |RowsOf(x, Actor)| == 1 && MemberMay(policy, c, x)
    case Base => true
  }

  function Next(c: Command, q: Query): Phase {
    match q
    case Org => Asking(Links)
    case Links => Asking(Member)
    case Member => Asking(Assigned)
    case Assigned => Asking(RoleDef)
    case RoleDef => Asking(Grants)
    case Grants => Asking(Actor)
    case Actor => if c.requireBase then Asking(Base) else Working
    case Base => Timing
  }

  /** An entitlement's status at an instant, if it has started. */
  predicate Started(e: Row, at: int)
    requires e.Entitlement?
  {
    e.startsAt.None? || e.startsAt.value <= at
  }

  function StatusAt(e: Row, at: int): Status
    requires e.Entitlement?
  {
    if e.expiresAt.Some? && e.expiresAt.value <= at then Expired else e.status
  }

  /** Some base entitlement is active at the instant and none is suspended. */
  predicate Entitled(rows: Rows, at: int) {
    && (forall id :: id in rows && rows[id].Entitlement? && Started(rows[id], at) ==> StatusAt(rows[id], at) != Suspended)
    && (exists id :: id in rows && rows[id].Entitlement? && Started(rows[id], at) && StatusAt(rows[id], at) == Active)
  }

  // ----- the steps -----

  datatype Event =
    | BeginCommand(t: Txn, c: Command)
    | BeginOther(t: Txn)
    | Ask(t: Txn)                                   // a locking read starts: its snapshot
    | LockNext(t: Txn, id: Id)                      // the read locks one of its rows and reads it again
    | Answer(t: Txn)                                // the read is complete
    | ReadClock(t: Txn)
    | TakeLock(t: Txn, id: Id, mode: Mode)          // work, or another transaction, locks a row
    | Change(t: Txn, id: Id, row: Option<Row>)      // UPDATE, or DELETE for None
    | Insert(t: Txn, id: Id, added: Row)
    | Commit(t: Txn)
    | Rollback(t: Txn)                              // after a denial or an error, or the connection is lost
    | Elapse

  /** No other transaction holds a conflicting lock; otherwise the statement waits. */
  ghost predicate MayLock(s: State, t: Txn, id: Id, mode: Mode) {
    forall l :: l in s.locks && l.row == id && l.holder != t ==> !Conflict(l.mode, mode)
  }

  predicate Holds(locks: set<Lock>, t: Txn, id: Id) { exists mode: Mode :: Lock(id, t, mode) in locks }

  predicate HoldsForWrite(locks: set<Lock>, t: Txn, id: Id) {
    Lock(id, t, NoKeyUpdate) in locks || Lock(id, t, Update) in locks
  }

  /** The organization a row refers to through its foreign key. */
  function Parent(row: Row): Option<Id> {
    match row
    case Link(o, _, _, _) => Some(o)
    case Membership(o, _, _, _, _, _, _, _) => Some(o)
    case Role(o, _) => Some(o)
    case Entitlement(scope, _, _, _) => Some(scope.organization)
    case _ => None
  }

  function ScopeOf(row: Row): Option<Scope> { if row.Entitlement? then Some(row.scope) else None }

  function OrgRows(db: Rows, organization: Id): set<Id> { set id | id in db && Parent(db[id]) == Some(organization) }

  function AfterWrite(db: Rows, w: map<Id, Option<Row>>, id: Id): Option<Row> {
    if id in w then w[id] else if id in db then Some(db[id]) else None
  }

  function Overlay(db: Rows, w: map<Id, Option<Row>>): Rows {
    map id | id in db.Keys + w.Keys && AfterWrite(db, w, id).Some? :: AfterWrite(db, w, id).value
  }

  function Set(s: State, t: Txn, x: Open): State { s.(open := s.open[t := x]) }

  /** The entitlements that a set of writes moves to another scope. */
  function MovesOf(db: Rows, w: map<Id, Option<Row>>): set<Move> {
    set id | id in w && id in db && w[id].Some? && w[id].value.Entitlement? && ScopeOf(w[id].value) != ScopeOf(db[id])
      :: Move(id, w[id].value.scope)
  }

  /** A row stays in its table. */
  predicate SameTable(a: Row, b: Row) {
    && (a.Organization? <==> b.Organization?) && (a.Link? <==> b.Link?) && (a.Membership? <==> b.Membership?)
    && (a.Assignment? <==> b.Assignment?) && (a.Role? <==> b.Role?) && (a.Grant? <==> b.Grant?)
    && (a.User? <==> b.User?) && (a.Entitlement? <==> b.Entitlement?)
  }

  const FRESH := Open(None, Working, map[], None, 0, map[], {}, 0)

  ghost function LockRow(s: State, t: Txn, x: Open, c: Command, q: Query, todo: set<Id>, id: Id): State {
    var waiting := x.(phase := Locking(q, todo - {id}));
    if id !in s.db then Set(s, t, waiting)
    else
      var s' := s.(locks := s.locks + {Lock(id, t, ModeOf(q))});
      if !Matches(c, x.member, q, id, s.db[id]) then Set(s', t, waiting)
      else
        var y := waiting.(read := x.read[q := RowsOf(x, q)[id := s.db[id]]]);
        if q == Org then
          Set(s'.(trace := s.trace + [Entered(t, c.organization)]), t, y.(children := OrgRows(s.db, c.organization)))
        else Set(s', t, y)
  }

  /** The one row of a set of rows. */
  ghost function Sole(rows: Rows): Option<Found> {
    if exists id :: rows.Keys == {id} then
      var id :| rows.Keys == {id};
      Some(Found(id, rows[id]))
    else None
  }

  ghost function AnswerQuery(policy: Policy, x: Open, c: Command, q: Query): Open {
    if !Passes(policy, c, x, q) then x.(phase := Denied)
    else if q == Member then x.(phase := Next(c, q), member := Sole(RowsOf(x, Member)))
    else x.(phase := Next(c, q))
  }

  predicate Inside(x: Open) { x.command.Some? && RowsOf(x, Org) != map[] }

  ghost function End(s: State, t: Txn, x: Open, ending: Ending, db: Rows): State {
    s.(db := db, locks := (set l | l in s.locks && l.holder != t), open := s.open - {t}, log := s.log + [ending],
       trace := if Inside(x) then s.trace + [Left(t, x.command.value.organization)] else s.trace)
  }

  /** The foreign key of a written row: inserting it, or pointing it at another organization, holds a lock on that
  organization's row (a stated assumption, see the comment at hotelSetupOrdinaryScope.ts:19-22). */
  predicate ParentHeld(s: State, t: Txn, id: Id, row: Row) {
    Parent(row).Some? && !(id in s.db && Parent(s.db[id]) == Parent(row)) ==> Holds(s.locks, t, Parent(row).value)
  }

  ghost predicate New(s: State, id: Id) { id !in s.db && forall t :: t in s.open ==> id !in s.open[t].writes }

  predicate MayWrite(s: State, t: Txn) { t in s.open && s.open[t].phase == Working }

  predicate MayChange(s: State, t: Txn, id: Id, row: Option<Row>) {
    && MayWrite(s, t) && id in s.db
    && (if row.None? then Lock(id, t, Update) in s.locks
        else HoldsForWrite(s.locks, t, id) && ParentHeld(s, t, id, row.value) && SameTable(s.db[id], row.value))
  }

  /** One step; an event that cannot happen, or has to wait, changes nothing. */
  ghost function Step(policy: Policy, s: State, e: Event): State {
    match e
    case BeginCommand(t, c) =>
      if t in s.used then s
      else Set(s.(used := s.used + {t}), t, FRESH.(command := Some(c), phase := if c.wellFormed then Asking(Org) else Denied))
    case BeginOther(t) => if t in s.used then s else Set(s.(used := s.used + {t}), t, FRESH)
    case Ask(t) =>
      if t in s.open && s.open[t].command.Some? && s.open[t].phase.Asking? then
        var x := s.open[t];
        var q := x.phase.q;
        Set(s, t, x.(phase := Locking(q, Candidates(s.db, x.command.value, x.member, q)), read := x.read[q := map[]],
                     since := |s.moves|))
      else s
    case LockNext(t, id) =>
      if t in s.open && s.open[t].command.Some? && s.open[t].phase.Locking? && id in s.open[t].phase.todo
         && MayLock(s, t, id, ModeOf(s.open[t].phase.q)) then
        LockRow(s, t, s.open[t], s.open[t].command.value, s.open[t].phase.q, s.open[t].phase.todo, id)
      else s
    case Answer(t) =>
      if t in s.open && s.open[t].command.Some? && s.open[t].phase.Locking? && s.open[t].phase.todo == {} then
        Set(s, t, AnswerQuery(policy, s.open[t], s.open[t].command.value, s.open[t].phase.q))
      else s
    case ReadClock(t) =>
      if t in s.open && s.open[t].phase == Timing then
        var x := s.open[t];
        Set(s, t, x.(at := s.now, phase := if Entitled(RowsOf(x, Base), s.now) then Working else Denied))
      else s
    case TakeLock(t, id, mode) =>
      if MayWrite(s, t) && id in s.db && MayLock(s, t, id, mode) then s.(locks := s.locks + {Lock(id, t, mode)}) else s
    case Change(t, id, row) =>
      if MayChange(s, t, id, row) then
        Set(s, t, s.open[t].(writes := s.open[t].writes[id := row]))
      else s
    case Insert(t, id, row) =>
      if MayWrite(s, t) && New(s, id) && ParentHeld(s, t, id, row) then
        Set(s, t, s.open[t].(writes := s.open[t].writes[id := Some(row)]))
      else s
    case Commit(t) =>
      if MayWrite(s, t) then
        End(s, t, s.open[t], Committed(t, s.open[t].writes), Overlay(s.db, s.open[t].writes))
          .(moves := s.moves + [MovesOf(s.db, s.open[t].writes)])
      else s
    case Rollback(t) =>
      if t in s.open then End(s, t, s.open[t], RolledBack(t, s.open[t].phase == Denied), s.db) else s
    case Elapse => s.(now := s.now + 1)
  }

  function Initial(db: Rows): State { State(db, {}, map[], {}, 0, [], [], []) }
}
