/** The promises of the owner transactions over every run: authority stands at commit, denial leaves no trace in the
tables, and the commands of one organization run one after another. */
module OwnerCommits {
  import opened Options
  import opened Runs
  import opened OwnerTransactions
  import opened OwnerAuthority
  import opened OwnerIsolation
  import opened OwnerColumns

  ghost predicate Isolated(policy: Policy, s: State) {
    && Known(s) && LocksOk(s) && AllSound(policy, s) && AllWrites(s) && Apart(s) && AllGuarded(s) && AllNoNewRows(s)
    && SnapshotsPast(s) && AllComplete(s)
  }

  lemma IsolatedStep(policy: Policy, s: State, e: Event)
    requires Isolated(policy, s)
    ensures Isolated(policy, Step(policy, s, e))
  {
    KnownStep(policy, s, e);
    LocksStep(policy, s, e);
    SoundStep(policy, s, e);
    WritesStep(policy, s, e);
    ApartStep(policy, s, e);
    GuardedStep(policy, s, e);
    NoNewRowsStep(policy, s, e);
    SnapshotsStep(policy, s, e);
    CompleteStep(policy, s, e);
  }

  ghost function Steps(policy: Policy): (State, Event) -> State { (s, e) => Step(policy, s, e) }

  /** The state after a run from given tables. */
  ghost function Reached(policy: Policy, db: Rows, events: seq<Event>): State { Run(Steps(policy), Initial(db), events) }

  lemma AlwaysIsolated(policy: Policy, db: Rows, events: seq<Event>)
    ensures Isolated(policy, Reached(policy, db, events))
  {
    forall s, e | Isolated(policy, s) ensures Isolated(policy, Steps(policy)(s, e)) { IsolatedStep(policy, s, e); }
    RunKeeps(Steps(policy), s => Isolated(policy, s), Initial(db), events);
  }

  // ----- authority at commit -----

  ghost predicate Part(rows: Rows, db: Rows) { forall id :: id in rows ==> id in db && db[id] == rows[id] }

  function BaseRows(db: Rows, c: Command): Rows {
    map id | id in db && IsBase(c, db[id]) :: db[id]
  }

  /** Base access, as the code decides it on the base entitlements, is base access in the columns of the tables. */
  lemma BaseInColumns(db: Rows, c: Command, at: int)
    ensures Entitled(BaseRows(db, c), at) <==> BaseAccess(c, db, at)
  {
    var rows := BaseRows(db, c);
    EntitledInColumns(rows, at);
    if id :| id in db && IsBase(c, db[id]) && InForce(db[id], at) && db[id].status == Suspended { assert id in rows; }
    if id :| id in db && IsBase(c, db[id]) && InForce(db[id], at) && db[id].status == Active { assert id in rows; }
  }

  /** The tables as they are give the command its authority: the organization, both owner links, the membership and
  the user are active in them, and the policy, on rows that are all in them, grants the property and the permission. */
  ghost predicate Stands(policy: Policy, c: Command, db: Rows, m: Found, assignments: Rows, role: Rows, grants: Rows) {
    && c.organization in db && db[c.organization] == Organization(HotelGroup, Active)
    && OwnerLinks(c, db)
    && c.user in db && db[c.user] == User(Active)
    && m.id in db && db[m.id] == m.row && IsMember(c, m.row) && m.row.pms
    && Part(assignments, AssignmentRows(c, db, m)) && Part(role, RoleRows(c, db, m)) && Part(grants, GrantRows(db, m))
    && c.property in policy.properties(m, assignments, role)
    && policy.permissions(m, assignments, role, grants).Some?
    && MayUse(policy.permissions(m, assignments, role, grants).value, c.permission, m.row)
  }

  lemma ReadIsPart(s: State, t: Txn, q: Query)
    requires t in s.open && Guarded(s, t)
    ensures Part(RowsOf(s.open[t], q), s.db)
  {
    var x := s.open[t];
    forall id | id in RowsOf(x, q) ensures id in s.db && s.db[id] == RowsOf(x, q)[id] { assert ReadsRow(x, q, id); }
  }

  lemma SingleMatch(policy: Policy, s: State, t: Txn, q: Query, id: Id, row: Row)
    requires t in s.open && Guarded(s, t) && Sound(policy, s.open[t]) && s.open[t].command.Some?
    requires |RowsOf(s.open[t], q)| == 1
    requires forall i, r :: Matches(s.open[t].command.value, s.open[t].member, q, i, r) ==> i == id && r == row
    ensures id in s.db && s.db[id] == row
  {
    SoleOf(RowsOf(s.open[t], q));
    var i := Sole(RowsOf(s.open[t], q)).value.id;
    assert i in RowsOf(s.open[t], q);
    assert ReadsRow(s.open[t], q, i);
  }

  lemma PairedPart(c: Command, rows: Rows, db: Rows)
    requires Paired(c, rows) && Part(rows, db)
    ensures Paired(c, db)
  {
  }

  /** A command at work has passed every query. */
  lemma WorkingPassed(policy: Policy, x: Open, q: Query)
    requires Sound(policy, x) && x.command.Some? && x.phase == Working && q != Base
    ensures Passes(policy, x.command.value, x, q) && x.member.Some?
  {
  }

  lemma MemberStands(policy: Policy, s: State, t: Txn)
    requires t in s.open && Guarded(s, t) && Sound(policy, s.open[t]) && s.open[t].command.Some? && s.open[t].phase == Working
    ensures var x := s.open[t];
            && x.member.Some?
            && var c, m := x.command.value, x.member.value;
               && m.id in s.db && s.db[m.id] == m.row && Matches(c, x.member, Member, m.id, m.row) && m.row.pms
  {
    var x := s.open[t];
    WorkingPassed(policy, x, Actor);
    assert ReadsRow(x, Member, x.member.value.id);
  }

  /** The rows a query returned are in the tables and match it there. */
  lemma ReadMatchesNow(policy: Policy, s: State, t: Txn, q: Query, id: Id)
    requires t in s.open && Guarded(s, t) && Sound(policy, s.open[t]) && s.open[t].command.Some? && id in RowsOf(s.open[t], q)
    ensures id in s.db && s.db[id] == RowsOf(s.open[t], q)[id]
    ensures Matches(s.open[t].command.value, s.open[t].member, q, id, s.db[id])
  {
    assert ReadsRow(s.open[t], q, id);
  }

  lemma PolicyRows(policy: Policy, s: State, t: Txn)
    requires t in s.open && Guarded(s, t) && Sound(policy, s.open[t]) && s.open[t].command.Some? && s.open[t].member.Some?
    ensures var x := s.open[t];
            var c, m := x.command.value, x.member.value;
            && Part(RowsOf(x, Assigned), AssignmentRows(c, s.db, m)) && Part(RowsOf(x, RoleDef), RoleRows(c, s.db, m))
            && Part(RowsOf(x, Grants), GrantRows(s.db, m))
  {
    var x := s.open[t];
    forall id | id in RowsOf(x, Assigned) ensures id in AssignmentRows(x.command.value, s.db, x.member.value) {
      ReadMatchesNow(policy, s, t, Assigned, id);
      MatchesInColumns(x.command.value, x.member, id, s.db[id]);
    }
    forall id | id in RowsOf(x, RoleDef) ensures id in RoleRows(x.command.value, s.db, x.member.value) {
      ReadMatchesNow(policy, s, t, RoleDef, id);
      MatchesInColumns(x.command.value, x.member, id, s.db[id]);
    }
    forall id | id in RowsOf(x, Grants) ensures id in GrantRows(s.db, x.member.value) {
      ReadMatchesNow(policy, s, t, Grants, id);
      MatchesInColumns(x.command.value, x.member, id, s.db[id]);
    }
    ReadIsPart(s, t, Assigned);
    ReadIsPart(s, t, RoleDef);
    ReadIsPart(s, t, Grants);
  }

  /** At any moment an owner command could commit, the tables still give it its authority. */
  lemma AuthorityStands(policy: Policy, s: State, t: Txn)
    requires Isolated(policy, s) && MayWrite(s, t) && s.open[t].command.Some?
    ensures var x := s.open[t];
            && x.member.Some?
            && Stands(policy, x.command.value, s.db, x.member.value, RowsOf(x, Assigned), RowsOf(x, RoleDef), RowsOf(x, Grants))
  {
    var x := s.open[t];
    var c := x.command.value;
    assert Guarded(s, t) && Sound(policy, x);
    MemberStands(policy, s, t);
    PolicyRows(policy, s, t);
    ReadIsPart(s, t, Links);
    WorkingPassed(policy, x, Org);
    WorkingPassed(policy, x, Links);
    WorkingPassed(policy, x, Actor);
    SingleMatch(policy, s, t, Org, c.organization, Organization(HotelGroup, Active));
    SingleMatch(policy, s, t, Actor, c.user, User(Active));
    PairedPart(c, RowsOf(x, Links), s.db);
    LinksInColumns(c, s.db);
    MatchesInColumns(c, x.member, x.member.value.id, x.member.value.row);
    GrantedInColumns(policy.permissions(x.member.value, RowsOf(x, Assigned), RowsOf(x, RoleDef), RowsOf(x, Grants)).value,
                     c.permission, x.member.value.row);
  }

  /** In every interleaving, every row a command's decision read is still present and unchanged when it commits. */
  lemma ReadsUnchangedAtCommit(policy: Policy, db: Rows, events: seq<Event>, t: Txn, q: Query, id: Id)
    requires var s := Reached(policy, db, events); MayWrite(s, t) && ReadsRow(s.open[t], q, id)
    ensures var s := Reached(policy, db, events); id in s.db && s.db[id] == s.open[t].read[q][id]
  {
    AlwaysIsolated(policy, db, events);
    assert Guarded(Reached(policy, db, events), t);
  }

  /** And its authority, worked out on the tables of that instant, stands. */
  lemma AuthorityStandsAtCommit(policy: Policy, db: Rows, events: seq<Event>, t: Txn)
    requires var s := Reached(policy, db, events); MayWrite(s, t) && s.open[t].command.Some?
    ensures var s := Reached(policy, db, events);
            exists m, assignments, role, grants :: Stands(policy, s.open[t].command.value, s.db, m, assignments, role, grants)
  {
    AlwaysIsolated(policy, db, events);
    AuthorityStands(policy, Reached(policy, db, events), t);
  }

  // ----- base access -----

  /** The rows of a table that a query did not return. */
  function Unread(all: Rows, read: Rows): Rows { map id | id in all && id !in read :: all[id] }

  /** What a table says is what the rows read and the rows not read say together. */
  lemma ReadAndUnread(all: Rows, read: Rows, at: int)
    requires Part(read, all)
    ensures SuspendedIn(all, at) <==> SuspendedIn(read, at) || SuspendedIn(Unread(all, read), at)
    ensures ActiveIn(all, at) <==> ActiveIn(read, at) || ActiveIn(Unread(all, read), at)
  {
    forall id | id in all ensures id in read || id in Unread(all, read) { }
  }

  /** Base access on the tables, from what the command read and what it did not. */
  lemma EntitledFromParts(all: Rows, read: Rows, at: int)
    requires Part(read, all)
    ensures var late := Unread(all, read);
            && (Entitled(read, at) ==> (Entitled(all, at) <==> !SuspendedIn(late, at)))
            && (!Entitled(read, at) ==>
                 (Entitled(all, at) <==> !SuspendedIn(read, at) && !SuspendedIn(late, at) && ActiveIn(late, at)))
  {
    ReadAndUnread(all, read, at);
    EntitledInColumns(all, at);
    EntitledInColumns(read, at);
  }

  /** The base entitlements in the tables that a command did not read. */
  function Late(s: State, t: Txn): Rows
    requires t in s.open && s.open[t].command.Some?
  {
    Unread(BaseRows(s.db, s.open[t].command.value), RowsOf(s.open[t], Base))
  }

  /** The base entitlements read are in the tables, and any other one there was committed into the command's base scope
  after its query's snapshot. */
  lemma BaseIsComplete(policy: Policy, s: State, t: Txn)
    requires Isolated(policy, s) && t in s.open && s.open[t].command.Some? && s.open[t].command.value.requireBase
    requires s.open[t].phase == Timing || s.open[t].phase == Working
    ensures var x := s.open[t];
            && Part(RowsOf(x, Base), BaseRows(s.db, x.command.value))
            && forall id :: id in Late(s, t) ==> Arrived(s, x, x.command.value, id)
  {
    var x := s.open[t];
    var c := x.command.value;
    assert Guarded(s, t) && Sound(policy, x) && Complete(s, t, Base);
    assert Base in x.read;
    forall id | id in RowsOf(x, Base) ensures id in BaseRows(s.db, c) && BaseRows(s.db, c)[id] == RowsOf(x, Base)[id] {
      assert ReadsRow(x, Base, id);
      assert Matches(c, x.member, Base, id, x.read[Base][id]);
    }
    forall id | id in Late(s, t) ensures Arrived(s, x, c, id) {
      assert Matches(c, x.member, Base, id, s.db[id]);
      assert !Seen(x, Base, id);
    }
  }

  /** The clock is read under every lock. Access granted is what the base entitlements in the tables give at that
  instant, if and only if none that arrived after the query's snapshot is suspended; access refused is refused by the
  tables too, if and only if no arrival makes the difference. Without arrivals the decision is that of the tables. */
  lemma EntitledAtTheInstant(policy: Policy, db: Rows, events: seq<Event>, t: Txn)
    requires var s := Reached(policy, db, events); t in s.open && s.open[t].phase == Timing
    ensures var s := Reached(policy, db, events);
            && s.open[t].command.Some?
            && var granted := Step(policy, s, ReadClock(t)).open[t].phase == Working;
               var tables := BaseAccess(s.open[t].command.value, s.db, s.now);
               && (forall id :: id in Late(s, t) ==> Arrived(s, s.open[t], s.open[t].command.value, id))
               && (granted ==> (tables <==> !SuspendedIn(Late(s, t), s.now)))
               && (!granted ==> (tables <==> !SuspendedIn(RowsOf(s.open[t], Base), s.now)
                                             && !SuspendedIn(Late(s, t), s.now) && ActiveIn(Late(s, t), s.now)))
               && (Late(s, t) == map[] ==> (granted <==> tables))
               && (AllExpired(s.open[t].command.value, s.db, s.now) ==> !granted)
  {
    var s := Reached(policy, db, events);
    AlwaysIsolated(policy, db, events);
    assert Sound(policy, s.open[t]);
    BaseIsComplete(policy, s, t);
    ClockDecides(policy, s, t);
    EntitledFromParts(BaseRows(s.db, s.open[t].command.value), RowsOf(s.open[t], Base), s.now);
    BaseInColumns(s.db, s.open[t].command.value, s.now);
    if AllExpired(s.open[t].command.value, s.db, s.now) {
      ExpiredIsNot(s.open[t].command.value, s.db, RowsOf(s.open[t], Base), s.now);
    }
  }

  /** Base entitlements that have all expired give no access. */
  lemma ExpiredIsNot(c: Command, db: Rows, read: Rows, at: int)
    requires AllExpired(c, db, at) && Part(read, BaseRows(db, c))
    ensures !Entitled(read, at)
  {
    EntitledInColumns(read, at);
  }

  lemma ClockDecides(policy: Policy, s: State, t: Txn)
    requires t in s.open && s.open[t].phase == Timing
    ensures Step(policy, s, ReadClock(t)).open[t].phase == Working <==> Entitled(RowsOf(s.open[t], Base), s.now)
  {
  }

  /** When the command may commit, the tables give it access for the instant read, if and only if no base entitlement
  that arrived after its snapshot is suspended at that instant. */
  lemma StillEntitledAtCommit(policy: Policy, db: Rows, events: seq<Event>, t: Txn)
    requires var s := Reached(policy, db, events);
             MayWrite(s, t) && s.open[t].command.Some? && s.open[t].command.value.requireBase
    ensures var s := Reached(policy, db, events);
            && (forall id :: id in Late(s, t) ==> Arrived(s, s.open[t], s.open[t].command.value, id))
            && (BaseAccess(s.open[t].command.value, s.db, s.open[t].at) <==> !SuspendedIn(Late(s, t), s.open[t].at))
  {
    var s := Reached(policy, db, events);
    AlwaysIsolated(policy, db, events);
    assert Sound(policy, s.open[t]);
    BaseIsComplete(policy, s, t);
    EntitledFromParts(BaseRows(s.db, s.open[t].command.value), RowsOf(s.open[t], Base), s.open[t].at);
    BaseInColumns(s.db, s.open[t].command.value, s.open[t].at);
  }

  /** While a command is inside its organization, nothing anyone commits adds a row to it. */
  lemma OrganizationGainsNothing(policy: Policy, db: Rows, events: seq<Event>, t: Txn)
    requires var s := Reached(policy, db, events); t in s.open && Inside(s.open[t])
    ensures var s := Reached(policy, db, events);
            var organization := s.open[t].command.value.organization;
            forall id :: id in s.db && RefersTo(s.db[id], organization) ==> id in s.open[t].children
  {
    AlwaysIsolated(policy, db, events);
    var s := Reached(policy, db, events);
    var organization := s.open[t].command.value.organization;
    assert NoNewRows(s, t);
    forall id | id in s.db && RefersTo(s.db[id], organization) ensures id in s.open[t].children {
      assert id in OrgRows(s.db, organization);
    }
  }

  /** A link, membership, role or entitlement of the organization. */
  predicate RefersTo(row: Row, organization: Id) {
    || (row.Link? && row.organization == organization)
    || (row.Membership? && row.organization == organization)
    || (row.Role? && row.organization == organization)
    || (row.Entitlement? && row.scope.organization == organization)
  }

  // ----- denial -----

  /** The tables a log of endings leaves. */
  function Replay(db: Rows, log: seq<Ending>): Rows {
    if log == [] then db
    else
      var before := Replay(db, log[..|log| - 1]);
      match log[|log| - 1]
      case Committed(_, writes) => Overlay(before, writes)
      case RolledBack(_, _) => before
  }

  ghost predicate LogOk(policy: Policy, db: Rows, s: State) {
    && Known(s)
    && s.db == Replay(db, s.log)
    && (forall i :: 0 <= i < |s.log| ==> s.log[i].txn in s.used && s.log[i].txn !in s.open)
    && (forall i, j :: 0 <= i < j < |s.log| ==> s.log[i].txn != s.log[j].txn)
  }

  lemma ReplayOne(db: Rows, log: seq<Ending>, ending: Ending)
    ensures Replay(db, log + [ending])
         == if ending.Committed? then Overlay(Replay(db, log), ending.writes) else Replay(db, log)
  {
    assert (log + [ending])[..|log + [ending]| - 1] == log;
  }

  ghost predicate Ends(s: State, s': State, ending: Ending) {
    && ending.txn in s.open && s'.open == s.open - {ending.txn} && s'.log == s.log + [ending]
    && s'.db == (if ending.Committed? then Overlay(s.db, ending.writes) else s.db)
  }

  lemma LogGrows(policy: Policy, s: State, e: Event)
    ensures var s' := Step(policy, s, e);
            || (s'.log == s.log && s'.db == s.db && s'.used <= s.used + (if e.Elapse? then {} else {e.t})
                && (forall t :: t in s'.open && t !in s.open ==> t !in s.used))
            || exists ending :: Ends(s, s', ending)
  {
    match e
    case Commit(t) =>
      if MayWrite(s, t) { var ending := Committed(t, s.open[t].writes); assert Ends(s, Step(policy, s, e), ending); }
    case Rollback(t) =>
      if t in s.open { var ending := RolledBack(t, s.open[t].phase == Denied); assert Ends(s, Step(policy, s, e), ending); }
    case _ =>
  }

  lemma LogStep(policy: Policy, db: Rows, s: State, e: Event)
    requires LogOk(policy, db, s)
    ensures LogOk(policy, db, Step(policy, s, e))
  {
    var s' := Step(policy, s, e);
    KnownStep(policy, s, e);
    LogGrows(policy, s, e);
    if s'.log != s.log {
      var ending :| Ends(s, s', ending);
      ReplayOne(db, s.log, ending);
    }
  }

  lemma AlwaysLogged(policy: Policy, db: Rows, events: seq<Event>)
    ensures LogOk(policy, db, Reached(policy, db, events))
  {
    forall s, e | LogOk(policy, db, s) ensures LogOk(policy, db, Steps(policy)(s, e)) { LogStep(policy, db, s, e); }
    RunKeeps(Steps(policy), s => LogOk(policy, db, s), Initial(db), events);
  }

  /** The tables are exactly the committed writes over the first tables, and a command that was denied committed none:
  it has no other ending. */
  lemma DeniedWritesNothing(policy: Policy, db: Rows, events: seq<Event>, t: Txn)
    requires RolledBack(t, true) in Reached(policy, db, events).log
    ensures var s := Reached(policy, db, events);
            s.db == Replay(db, s.log) && t !in s.open && forall i :: 0 <= i < |s.log| && s.log[i].Committed? ==> s.log[i].txn != t
  {
    AlwaysLogged(policy, db, events);
    var s := Reached(policy, db, events);
    var j :| 0 <= j < |s.log| && s.log[j] == RolledBack(t, true);
  }

  lemma DeniedStepsAway(policy: Policy, s: State, e: Event)
    requires !e.Elapse? && Known(s) && e.t in s.open && s.open[e.t].phase == Denied && s.open[e.t].command.Some?
    ensures e == Rollback(e.t) || Step(policy, s, e) == s
    ensures e == Rollback(e.t) ==>
              var s' := Step(policy, s, e); e.t !in s'.open && s'.log == s.log + [RolledBack(e.t, true)] && s'.db == s.db
  {
  }

  lemma OthersRemain(policy: Policy, s: State, e: Event, t: Txn)
    requires t in s.open && Doer(e) != Some(t)
    ensures t in Step(policy, s, e).open
  {
  }

  /** Denied, a command can only roll back: it stays denied, with nothing written. */
  lemma DeniedStaysDenied(policy: Policy, s: State, e: Event, t: Txn)
    requires Known(s) && AllSound(policy, s) && t in s.open && s.open[t].phase == Denied
    ensures s.open[t].writes == map[]
    ensures var s' := Step(policy, s, e);
            if t in s'.open then s'.open[t].phase == Denied
            else e == Rollback(t) && s'.log == s.log + [RolledBack(t, true)] && s'.db == s.db
  {
    assert Sound(policy, s.open[t]);
    if Doer(e) == Some(t) { DeniedStepsAway(policy, s, e); }
    else { OthersRemain(policy, s, e, t); OthersStay(policy, s, e, t); }
  }

  // ----- one after another -----

  datatype Turn = Nobody | By(txn: Txn) | Overlap

  /** Who is inside an organization after a trace of entries and exits. */
  function TurnOf(trace: seq<Mark>, organization: Id): Turn {
    if trace == [] then Nobody
    else
      var before, last := TurnOf(trace[..|trace| - 1], organization), trace[|trace| - 1];
      if last.organization != organization then before
      else match last
           case Entered(t, _) => if before == Nobody then By(t) else Overlap
           case Left(t, _) => if before == By(t) then Nobody else Overlap
  }

  predicate InsideOf(x: Open, organization: Id) { Inside(x) && x.command.value.organization == organization }

  /** The organization's turn is that of the one command inside it. */
  ghost predicate TurnOk(s: State, organization: Id) {
    match TurnOf(s.trace, organization)
    case Overlap => false
    case Nobody => forall t :: t in s.open ==> !InsideOf(s.open[t], organization)
    case By(t) => forall t' :: t' in s.open && InsideOf(s.open[t'], organization) <==> t' == t
  }

  /** Before a command asks for its organization it is not inside, and it locks only that one row. */
  predicate EntersOnce(x: Open) {
    x.command.Some? ==>
      && (x.phase == Asking(Org) ==> !Inside(x))
      && (x.phase.Locking? && x.phase.q == Org ==> x.phase.todo <= {x.command.value.organization} && (Inside(x) ==> x.phase.todo == {}))
  }

  ghost predicate AllEnterOnce(s: State) { forall t :: t in s.open ==> EntersOnce(s.open[t]) }

  lemma LockEntersOnce(policy: Policy, s: State, t: Txn, id: Id)
    requires t in s.open && EntersOnce(s.open[t])
    ensures EntersOnce(Step(policy, s, LockNext(t, id)).open[t])
  {
    var x, y := s.open[t], Step(policy, s, LockNext(t, id)).open[t];
    if x.command.Some? && x.phase.Locking? && x.phase.q == Org && id in x.phase.todo && y.phase.Locking? {
      assert x.phase.todo - {x.command.value.organization} == {};
    }
  }

  lemma AskEntersOnce(policy: Policy, s: State, t: Txn)
    requires t in s.open && EntersOnce(s.open[t])
    ensures EntersOnce(Step(policy, s, Ask(t)).open[t])
  {
  }

  lemma DoerEntersOnce(policy: Policy, s: State, e: Event)
    requires AllEnterOnce(s) && !e.Elapse? && e.t in Step(policy, s, e).open
    ensures EntersOnce(Step(policy, s, e).open[e.t])
  {
    if e.t in s.open {
      assert EntersOnce(s.open[e.t]);
      if e.LockNext? { LockEntersOnce(policy, s, e.t, e.id); }
      else if e.Ask? { AskEntersOnce(policy, s, e.t); }
    }
  }

  lemma EntersOnceStep(policy: Policy, s: State, e: Event)
    requires AllEnterOnce(s)
    ensures AllEnterOnce(Step(policy, s, e))
  {
    var s' := Step(policy, s, e);
    forall t | t in s'.open ensures EntersOnce(s'.open[t]) {
      if Doer(e) == Some(t) { DoerEntersOnce(policy, s, e); } else { OthersStay(policy, s, e, t); }
    }
  }

  lemma TurnAppend(trace: seq<Mark>, mark: Mark, organization: Id)
    ensures TurnOf(trace + [mark], organization)
         == (var before := TurnOf(trace, organization);
             if mark.organization != organization then before
             else match mark
                  case Entered(t, _) => if before == Nobody then By(t) else Overlap
                  case Left(t, _) => if before == By(t) then Nobody else Overlap)
  {
    assert (trace + [mark])[..|trace + [mark]| - 1] == trace;
  }

  /** A step is an entry, an exit, or leaves everyone where they were. */
  ghost predicate EntersNow(s: State, s': State, t: Txn, organization: Id) {
    && t in s.open && !Inside(s.open[t]) && MayLock(s, t, organization, Update)
    && s'.open.Keys == s.open.Keys && InsideOf(s'.open[t], organization) && s'.trace == s.trace + [Entered(t, organization)]
  }

  ghost predicate LeavesNow(s: State, s': State, t: Txn, organization: Id) {
    t in s.open && InsideOf(s.open[t], organization) && s'.open == s.open - {t} && s'.trace == s.trace + [Left(t, organization)]
  }

  ghost predicate StaysNow(s: State, s': State, t: Txn) {
    s'.trace == s.trace && ((t in s'.open && Inside(s'.open[t])) <==> (t in s.open && Inside(s.open[t])))
    && (t in s'.open && t in s.open && Inside(s.open[t]) ==> s'.open[t].command == s.open[t].command)
  }

  lemma LockMoves(policy: Policy, s: State, t: Txn, id: Id)
    requires t in s.open && EntersOnce(s.open[t])
    ensures var s' := Step(policy, s, LockNext(t, id));
            StaysNow(s, s', t) || (s.open[t].command.Some? && EntersNow(s, s', t, s.open[t].command.value.organization))
  {
    var x, s' := s.open[t], Step(policy, s, LockNext(t, id));
    if x.command.Some? && x.phase.Locking? && id in x.phase.todo && MayLock(s, t, id, ModeOf(x.phase.q)) {
      if x.phase.q != Org { assert RowsOf(s'.open[t], Org) == RowsOf(x, Org); }
      else if s'.trace != s.trace { assert id in RowsOf(s'.open[t], Org); }
    }
  }

  lemma TraceStays(policy: Policy, s: State, e: Event)
    requires !e.LockNext? && !e.Commit? && !e.Rollback?
    ensures Step(policy, s, e).trace == s.trace && s.open.Keys <= Step(policy, s, e).open.Keys
  {
  }

  lemma AskStays(policy: Policy, s: State, t: Txn)
    requires t in s.open && EntersOnce(s.open[t])
    ensures StaysNow(s, Step(policy, s, Ask(t)), t)
  {
    var x, y := s.open[t], Step(policy, s, Ask(t)).open[t];
    if x.command.Some? && x.phase.Asking? && x.phase.q != Org { assert RowsOf(y, Org) == RowsOf(x, Org); }
  }

  lemma EndLeaves(policy: Policy, s: State, e: Event)
    requires (e.Commit? || e.Rollback?) && e.t in s.open
    ensures var s' := Step(policy, s, e);
            || StaysNow(s, s', e.t)
            || (s.open[e.t].command.Some? && LeavesNow(s, s', e.t, s.open[e.t].command.value.organization))
  {
  }

  lemma OtherMoves(policy: Policy, s: State, e: Event)
    requires Known(s) && AllEnterOnce(s) && !e.Elapse? && !e.LockNext? && e.t in s.open
    ensures var s' := Step(policy, s, e);
            || StaysNow(s, s', e.t)
            || (s.open[e.t].command.Some? && LeavesNow(s, s', e.t, s.open[e.t].command.value.organization))
  {
    assert EntersOnce(s.open[e.t]);
    if e.Commit? || e.Rollback? { EndLeaves(policy, s, e); }
    else if e.Ask? { AskStays(policy, s, e.t); }
    else { TraceStays(policy, s, e); ReadsStay(policy, s, e, e.t); }
  }

  /** A new transaction is inside nothing. */
  lemma NewcomerStays(policy: Policy, s: State, e: Event)
    requires !e.Elapse? && e.t !in s.open
    ensures StaysNow(s, Step(policy, s, e), e.t)
  {
    if e.t in Step(policy, s, e).open { NothingReadYet(policy, s, e, e.t); }
  }

  /** Everyone but one transaction is as before. */
  ghost predicate OthersSame(s: State, s': State, t: Txn) {
    forall t' :: t' != t ==> (t' in s'.open <==> t' in s.open) && (t' in s.open ==> s'.open[t'] == s.open[t'])
  }

  lemma StayTurn(s: State, s': State, t: Txn, organization: Id)
    requires OthersSame(s, s', t) && StaysNow(s, s', t) && TurnOk(s, organization)
    ensures TurnOk(s', organization)
  {
    forall t' ensures (t' in s'.open && InsideOf(s'.open[t'], organization)) <==> (t' in s.open && InsideOf(s.open[t'], organization)) { }
  }

  lemma LeaveTurn(s: State, s': State, t: Txn, own: Id, organization: Id)
    requires OthersSame(s, s', t) && LeavesNow(s, s', t, own) && TurnOk(s, organization)
    ensures TurnOk(s', organization)
  {
    TurnAppend(s.trace, Left(t, own), organization);
  }

  /** A command that may lock an organization for update finds nobody else inside it. */
  lemma NobodyInside(policy: Policy, s: State, t: Txn, organization: Id)
    requires Isolated(policy, s) && t in s.open && !Inside(s.open[t]) && MayLock(s, t, organization, Update)
    ensures forall t' :: t' in s.open ==> !InsideOf(s.open[t'], organization)
  {
    forall t' | t' in s.open ensures !InsideOf(s.open[t'], organization) {
      if InsideOf(s.open[t'], organization) { InsideHolds(policy, s, t'); }
    }
  }

  lemma TurnHolder(s: State, organization: Id)
    requires TurnOk(s, organization)
    ensures var turn := TurnOf(s.trace, organization);
            turn != Overlap && (turn.By? ==> turn.txn in s.open && InsideOf(s.open[turn.txn], organization))
  {
  }

  lemma EntryTurn(policy: Policy, s: State, s': State, t: Txn, own: Id, organization: Id)
    requires Isolated(policy, s) && OthersSame(s, s', t) && EntersNow(s, s', t, own) && TurnOk(s, organization)
    ensures TurnOk(s', organization)
  {
    TurnAppend(s.trace, Entered(t, own), organization);
    NobodyInside(policy, s, t, own);
    TurnHolder(s, organization);
  }

  lemma TurnStep(policy: Policy, s: State, e: Event, organization: Id)
    requires Isolated(policy, s) && AllEnterOnce(s) && TurnOk(s, organization) && !e.Elapse?
    ensures TurnOk(Step(policy, s, e), organization)
  {
    var s' := Step(policy, s, e);
    EveryoneElse(policy, s, e);
    if e.t !in s.open { NewcomerStays(policy, s, e); }
    else if e.LockNext? { LockMoves(policy, s, e.t, e.id); }
    else { OtherMoves(policy, s, e); }
    if StaysNow(s, s', e.t) { StayTurn(s, s', e.t, organization); }
    else if LeavesNow(s, s', e.t, s.open[e.t].command.value.organization) {
      LeaveTurn(s, s', e.t, s.open[e.t].command.value.organization, organization);
    } else {
      EntryTurn(policy, s, s', e.t, s.open[e.t].command.value.organization, organization);
    }
  }

  lemma EveryoneElse(policy: Policy, s: State, e: Event)
    requires !e.Elapse?
    ensures OthersSame(s, Step(policy, s, e), e.t)
  {
    forall t | t != e.t
      ensures t in Step(policy, s, e).open <==> t in s.open
      ensures t in s.open ==> Step(policy, s, e).open[t] == s.open[t]
    {
      if t in Step(policy, s, e).open { OthersStay(policy, s, e, t); }
      if t in s.open { OthersRemain(policy, s, e, t); }
    }
  }

  ghost predicate AllTurns(s: State) { forall organization :: TurnOk(s, organization) }

  lemma AllTurnsStep(policy: Policy, s: State, e: Event)
    requires Isolated(policy, s) && AllEnterOnce(s) && AllTurns(s)
    ensures AllTurns(Step(policy, s, e))
  {
    forall organization ensures TurnOk(Step(policy, s, e), organization) {
      assert TurnOk(s, organization);
      if e.Elapse? { ElapseTurn(policy, s, organization); } else { TurnStep(policy, s, e, organization); }
    }
  }

  lemma ElapseTurn(policy: Policy, s: State, organization: Id)
    requires TurnOk(s, organization)
    ensures TurnOk(Step(policy, s, Elapse), organization)
  {
  }

  ghost predicate InTurn(policy: Policy, s: State) { Isolated(policy, s) && AllEnterOnce(s) && AllTurns(s) }

  lemma InTurnStep(policy: Policy, s: State, e: Event)
    requires InTurn(policy, s)
    ensures InTurn(policy, Step(policy, s, e))
  {
    IsolatedStep(policy, s, e);
    EntersOnceStep(policy, s, e);
    AllTurnsStep(policy, s, e);
  }

  lemma AlwaysInTurn(policy: Policy, db: Rows, events: seq<Event>)
    ensures InTurn(policy, Reached(policy, db, events))
  {
    forall s, e | InTurn(policy, s) ensures InTurn(policy, Steps(policy)(s, e)) { InTurnStep(policy, s, e); }
    RunKeeps(Steps(policy), s => InTurn(policy, s), Initial(db), events);
  }

  lemma {:induction false} TurnPrefix(trace: seq<Mark>, organization: Id, n: nat)
    requires n <= |trace| && TurnOf(trace, organization) != Overlap
    ensures TurnOf(trace[..n], organization) != Overlap
    decreases |trace|
  {
    if n < |trace| {
      TurnPrefix(trace[..|trace| - 1], organization, n);
      assert trace[..|trace| - 1][..n] == trace[..n];
    } else {
      assert trace[..n] == trace;
    }
  }

  /** Between two entries to an organization, the first to enter has left. */
  lemma {:induction false} EntriesApart(trace: seq<Mark>, organization: Id, i: nat, j: nat, t: Txn)
    requires i < j <= |trace| && trace[i] == Entered(t, organization)
    requires TurnOf(trace[..j], organization) != Overlap && TurnOf(trace[..j], organization) != By(t)
    ensures exists k :: i < k < j && trace[k] == Left(t, organization)
    decreases j
  {
    var before := trace[..j - 1];
    assert trace[..j][..j - 1] == before && trace[..j][j - 1] == trace[j - 1];
    if j - 1 > i && trace[j - 1] != Left(t, organization) {
      EntriesApart(trace, organization, i, j - 1, t);
    }
  }

  /** In every run, commands of one organization are inside it strictly one after another. */
  lemma OneAfterAnother(policy: Policy, db: Rows, events: seq<Event>, organization: Id, i: nat, j: nat)
    requires var trace := Reached(policy, db, events).trace;
             i < j < |trace| && trace[i] == Entered(trace[i].txn, organization) && trace[j] == Entered(trace[j].txn, organization)
    ensures var trace := Reached(policy, db, events).trace;
            exists k :: i < k < j && trace[k] == Left(trace[i].txn, organization)
  {
    var trace := Reached(policy, db, events).trace;
    AlwaysInTurn(policy, db, events);
    assert TurnOk(Reached(policy, db, events), organization);
    TurnPrefix(trace, organization, j + 1);
    assert trace[..j + 1][..j] == trace[..j] && trace[..j + 1][j] == trace[j];
    EntriesApart(trace, organization, i, j, trace[i].txn);
  }
}
