/** The steps of an owner command with nobody else about come to the answer of its checks on the tables, in every run;
and what one other transaction can slip in. */
module OwnerSolo {
  import opened Options
  import opened Runs
  import opened OwnerTransactions
  import opened OwnerAuthority
  import opened OwnerIsolation
  import opened OwnerCommits
  import opened OwnerColumns
  import opened OwnerAlone

  /** Everything read so far is what the tables hold. */
  ghost predicate Exact(db: Rows, c: Command, x: Open) {
    forall q {:trigger Finds(db, c, x.member, q)} :: q in x.read ==> x.read[q] == Finds(db, c, x.member, q)
  }

  // What each answer means on the tables.

  lemma OrgMeans(policy: Policy, db: Rows, c: Command, x: Open)
    requires Exact(db, c, x) && Org in x.read
    ensures Passes(policy, c, x, Org) <==> c.organization in db && db[c.organization] == Organization(HotelGroup, Active)
  {
    FindsOne(db, c, x.member, Org, c.organization, Organization(HotelGroup, Active));
  }

  lemma LinksMean(policy: Policy, db: Rows, c: Command, x: Open)
    requires Exact(db, c, x) && Links in x.read
    ensures Passes(policy, c, x, Links) <==> OwnerLinks(c, db)
  {
    FindsLinks(db, c, x.member);
    LinksInColumns(c, db);
  }

  lemma MemberMeans(policy: Policy, db: Rows, c: Command, x: Open)
    requires Exact(db, c, x) && Member in x.read && !Passes(policy, c, x, Member)
    ensures forall m :: !OnlyMember(c, db, m)
  {
    FindsBefore(db, c, x.member, None, Member);
    NoOnlyMember(c, db);
  }

  lemma KnownMember(db: Rows, c: Command, x: Open)
    requires Exact(db, c, x) && MemberKnown(x) && x.member.Some?
    ensures OnlyMember(c, db, x.member.value) && forall m :: OnlyMember(c, db, m) ==> m == x.member.value
  {
    FindsBefore(db, c, x.member, None, Member);
    FindsOnlyMember(c, db, x.member.value);
    OneOnlyMember(c, db, x.member.value);
  }

  lemma GrantsMean(policy: Policy, db: Rows, c: Command, x: Open)
    requires Exact(db, c, x) && x.member.Some? && OnlyMember(c, db, x.member.value)
    requires Assigned in x.read && RoleDef in x.read && Grants in x.read
    ensures MemberResolved(policy, x) <==> Permissions(policy, c, db, x.member.value).Some?
    ensures MemberMay(policy, c, x) <==> Covers(policy, c, db, x.member.value)
  {
    var m := x.member.value;
    OnlyMemberRow(c, db, m);
    FindsPolicyRows(c, db, m);
    if Permissions(policy, c, db, m).Some? { GrantedInColumns(Permissions(policy, c, db, m).value, c.permission, m.row); }
  }

  lemma ActorMeans(policy: Policy, db: Rows, c: Command, x: Open)
    requires Exact(db, c, x) && Actor in x.read && x.member.Some? && OnlyMember(c, db, x.member.value)
    requires Assigned in x.read && RoleDef in x.read && Grants in x.read
    ensures Passes(policy, c, x, Actor) <==> c.user in db && db[c.user] == User(Active) && Covers(policy, c, db, x.member.value)
  {
    FindsOne(db, c, x.member, Actor, c.user, User(Active));
    GrantsMean(policy, db, c, x);
  }

  lemma MemberDenied(policy: Policy, db: Rows, c: Command, x: Open)
    requires Exact(db, c, x) && MemberKnown(x) && x.member.Some? && Assigned in x.read && RoleDef in x.read && Grants in x.read
    requires !MemberResolved(policy, x) || (Actor in x.read && !Passes(policy, c, x, Actor))
    ensures !SomeMemberMay(policy, c, db)
  {
    KnownMember(db, c, x);
    GrantsMean(policy, db, c, x);
    if Actor in x.read { ActorMeans(policy, db, c, x); }
  }

  lemma NoMember(policy: Policy, db: Rows, c: Command, x: Open)
    requires Exact(db, c, x) && Member in x.read && !Passes(policy, c, x, Member)
    ensures !SomeMemberMay(policy, c, db)
  {
    MemberMeans(policy, db, c, x);
  }

  lemma AskedBefore(policy: Policy, c: Command, x: Open, q: Query)
    requires AllPassed(policy, c, x) && Rank(q) < PhaseRank(x.phase) && q != Base
    ensures q in x.read && Passes(policy, c, x, q)
  {
  }

  /** A query that does not pass, on exact rows, means the tables do not give the authority. */
  lemma DenialIsRight(policy: Policy, db: Rows, c: Command, x: Open, now: int)
    requires x.phase.Locking? && Exact(db, c, x) && AskedInOrder(x) && MemberKnown(x) && AllPassed(policy, c, x)
    requires !Passes(policy, c, x, x.phase.q)
    ensures !GrantedOn(policy, c, db, now)
  {
    DenialHasPart(policy, db, c, x);
    GrantedIsItsParts(policy, c, db, now);
  }

  lemma DenialHasPart(policy: Policy, db: Rows, c: Command, x: Open)
    requires x.phase.Locking? && Exact(db, c, x) && AskedInOrder(x) && MemberKnown(x) && AllPassed(policy, c, x)
    requires !Passes(policy, c, x, x.phase.q)
    ensures !MayReachClock(policy, c, db)
  {
    var q := x.phase.q;
    if q == Org { OrgMeans(policy, db, c, x); }
    else if q == Links { LinksMean(policy, db, c, x); }
    else if q == Member { NoMember(policy, db, c, x); }
    else {
      assert q == Grants || q == Actor;
      AskedBefore(policy, c, x, Assigned);
      AskedBefore(policy, c, x, RoleDef);
      if q == Actor { AskedBefore(policy, c, x, Grants); }
      MemberDenied(policy, db, c, x);
    }
  }

  lemma MemberAllowed(policy: Policy, db: Rows, c: Command, x: Open)
    requires Exact(db, c, x) && MemberKnown(x) && x.member.Some? && Assigned in x.read && RoleDef in x.read && Grants in x.read
    requires Actor in x.read && Passes(policy, c, x, Actor)
    ensures SomeMemberMay(policy, c, db)
  {
    KnownMember(db, c, x);
    ActorMeans(policy, db, c, x);
    assert MemberOn(policy, c, db, x.member.value);
  }

  /** Having passed all its queries on exact rows, a command has the authority, base access aside. */
  lemma PassingIsRight(policy: Policy, db: Rows, c: Command, x: Open)
    requires AllPassed(policy, c, x) && MemberKnown(x) && c.wellFormed && Exact(db, c, x) && (x.phase == Timing || x.phase == Working)
    ensures ScopeOn(c, db) && SomeMemberMay(policy, c, db)
  {
    AskedBefore(policy, c, x, Org);
    AskedBefore(policy, c, x, Links);
    AskedBefore(policy, c, x, Assigned);
    AskedBefore(policy, c, x, RoleDef);
    AskedBefore(policy, c, x, Grants);
    AskedBefore(policy, c, x, Actor);
    OrgMeans(policy, db, c, x);
    LinksMean(policy, db, c, x);
    MemberAllowed(policy, db, c, x);
  }

  // ----- the decision -----

  lemma ReadsBase(db: Rows, c: Command, x: Open)
    requires Exact(db, c, x) && Base in x.read
    ensures RowsOf(x, Base) == BaseRows(db, c)
  {
    FindsBase(db, c, x.member);
  }

  lemma GrantedByBase(policy: Policy, db: Rows, c: Command, now: int)
    requires ScopeOn(c, db) && SomeMemberMay(policy, c, db)
    ensures GrantedOn(policy, c, db, now) <==> (c.requireBase ==> Entitled(BaseRows(db, c), now))
  {
    GrantedIsItsParts(policy, c, db, now);
    BaseInColumns(db, c, now);
  }

  /** With every query passed, what is left to decide is base access, where it is required. */
  lemma QueriesDecide(policy: Policy, db: Rows, c: Command, x: Open, base: Rows, now: int)
    requires AllPassed(policy, c, x) && MemberKnown(x) && c.wellFormed && Exact(db, c, x)
    requires x.phase == Timing || x.phase == Working
    requires c.requireBase ==> base == BaseRows(db, c)
    ensures GrantedOn(policy, c, db, now) <==> (c.requireBase ==> Entitled(base, now))
  {
    PassingIsRight(policy, db, c, x);
    GrantedByBase(policy, db, c, now);
  }

  lemma BaseAsked(policy: Policy, c: Command, x: Open)
    requires AllPassed(policy, c, x) && c.requireBase && x.phase == Timing
    ensures Base in x.read
  {
  }

  /** The rows found are those read and those still to be locked. */
  ghost predicate Halfway(db: Rows, c: Command, x: Open, q: Query, todo: set<Id>) {
    q in x.read && Part(x.read[q], db) && x.read[q].Keys + todo == Finds(db, c, x.member, q).Keys
  }

  /** What was read is what the tables hold; the query under way has the rest still to lock. */
  ghost predicate ReadsTrue(db: Rows, c: Command, x: Open) {
    if x.phase.Locking?
    then Halfway(db, c, x, x.phase.q, x.phase.todo) && ExactBut(db, c, x, x.phase.q)
    else Exact(db, c, x)
  }

  ghost predicate ExactBut(db: Rows, c: Command, x: Open, q0: Query) {
    forall q {:trigger Finds(db, c, x.member, q)} :: q in x.read && q != q0 ==> x.read[q] == Finds(db, c, x.member, q)
  }

  predicate Decided(p: Phase) { p == Working || p == Denied }

  /** The decision is that of the tables. */
  ghost predicate Right(policy: Policy, c: Command, db: Rows, x: Open) {
    && (x.phase == Working ==> GrantedOn(policy, c, db, x.at))
    && (x.phase == Denied ==> !GrantedOn(policy, c, db, x.at))
    && (!Decided(x.phase) ==> c.wellFormed)
  }

  ghost predicate OwnLocks(s: State, t: Txn) { forall l :: l in s.locks ==> l.holder == t }

  ghost predicate Reads(x: Open, id: Id) { exists q :: ReadsRow(x, q, id) }

  /** Until it is decided, a command alone has locked only what it read. */
  ghost predicate LocksRead(s: State, x: Open) { !Decided(x.phase) ==> forall l :: l in s.locks ==> Reads(x, l.row) }

  /** Only t is open, on these tables, with what it read and decided true to them. */
  ghost predicate Solo(policy: Policy, c: Command, db: Rows, s: State, t: Txn) {
    && s.open.Keys == {t} && s.db == db && s.open[t].command == Some(c) && t in s.used
    && OwnLocks(s, t) && LocksRead(s, s.open[t])
    && Sound(policy, s.open[t]) && ReadsTrue(db, c, s.open[t]) && Right(policy, c, db, s.open[t])
  }

  // ----- step by step -----

  lemma AskTrue(db: Rows, c: Command, x: Open, y: Open, q: Query)
    requires Exact(db, c, x) && x.phase == Asking(q)
    requires y == x.(phase := Locking(q, Candidates(db, c, x.member, q)), read := x.read[q := map[]], since := y.since)
    ensures ReadsTrue(db, c, y)
  {
    assert Finds(db, c, x.member, q).Keys == Candidates(db, c, x.member, q);
  }

  lemma SoloAsk(policy: Policy, c: Command, db: Rows, s: State, t: Txn)
    requires Solo(policy, c, db, s, t) && s.open[t].phase.Asking?
    ensures Solo(policy, c, db, Step(policy, s, Ask(t)), t)
  {
    var x, s' := s.open[t], Step(policy, s, Ask(t));
    var y := s'.open[t];
    AskTrue(db, c, x, y, x.phase.q);
    SoundAsk(policy, c, x, y, Candidates(db, c, x.member, x.phase.q));
    forall l | l in s'.locks ensures Reads(y, l.row) {
      var q :| ReadsRow(x, q, l.row);
      assert q != x.phase.q;
      assert ReadsRow(y, q, l.row);
    }
  }

  function With(rows: Rows, id: Id, row: Row): Rows { rows[id := row] }

  lemma OneMore(rows: Rows, todo: set<Id>, id: Id, db: Rows)
    requires id in todo && id in db && Part(rows, db)
    ensures With(rows, id, db[id]).Keys + (todo - {id}) == rows.Keys + todo && Part(With(rows, id, db[id]), db)
  {
  }

  /** A lock that nobody contests: the row is read as it is. */
  lemma LockUncontested(policy: Policy, s: State, t: Txn, c: Command, q: Query, todo: set<Id>, id: Id)
    requires s.open.Keys == {t} && OwnLocks(s, t) && s.open[t].command == Some(c) && s.open[t].phase == Locking(q, todo) && q in s.open[t].read
    requires id in todo && id in s.db && Matches(c, s.open[t].member, q, id, s.db[id])
    ensures var x, s1 := s.open[t], Step(policy, s, LockNext(t, id));
            && s1.open.Keys == {t} && s1.db == s.db && s1.now == s.now && s1.used == s.used
            && s1.locks == s.locks + {Lock(id, t, ModeOf(q))}
            && s1.open[t] == x.(phase := Locking(q, todo - {id}), read := x.read[q := With(x.read[q], id, s.db[id])], children := s1.open[t].children)
  {
    assert MayLock(s, t, id, ModeOf(q));
    assert RowsOf(s.open[t], q) == s.open[t].read[q];
  }

  lemma LockTrue(db: Rows, c: Command, x: Open, y: Open, q: Query, todo: set<Id>, id: Id)
    requires x.phase == Locking(q, todo) && ReadsTrue(db, c, x) && id in todo && id in db
    requires y == x.(phase := Locking(q, todo - {id}), read := x.read[q := With(x.read[q], id, db[id])], children := y.children)
    ensures ReadsTrue(db, c, y)
  {
    OneMore(x.read[q], todo, id, db);
  }

  lemma SoloLock(policy: Policy, c: Command, db: Rows, s: State, t: Txn, id: Id)
    requires Solo(policy, c, db, s, t) && s.open[t].phase.Locking? && id in s.open[t].phase.todo
    ensures Solo(policy, c, db, Step(policy, s, LockNext(t, id)), t)
    ensures Step(policy, s, LockNext(t, id)).open[t].phase == Locking(s.open[t].phase.q, s.open[t].phase.todo - {id})
  {
    var x, s' := s.open[t], Step(policy, s, LockNext(t, id));
    var q, todo, y := x.phase.q, x.phase.todo, s'.open[t];
    TodoMatches(db, c, x, id);
    LockUncontested(policy, s, t, c, q, todo, id);
    LockTrue(db, c, x, y, q, todo, id);
    SoundUncontested(policy, s, t, id);
    LockedIsRead(s, s', t, q, id, x, y);
    RightUndecided(policy, c, db, x, y);
  }

  lemma TodoMatches(db: Rows, c: Command, x: Open, id: Id)
    requires x.phase.Locking? && ReadsTrue(db, c, x) && id in x.phase.todo
    ensures id in db && Matches(c, x.member, x.phase.q, id, db[id])
  {
    FindsMatching(db, c, x.member, x.phase.q);
    assert id in Finds(db, c, x.member, x.phase.q);
  }

  lemma SoundUncontested(policy: Policy, s: State, t: Txn, id: Id)
    requires t in s.open && Sound(policy, s.open[t]) && s.open[t].command.Some? && s.open[t].phase.Locking?
    requires t in Step(policy, s, LockNext(t, id)).open
    ensures Sound(policy, Step(policy, s, LockNext(t, id)).open[t])
  {
    SoundLockRow(policy, s, t, id);
  }

  lemma RightUndecided(policy: Policy, c: Command, db: Rows, x: Open, y: Open)
    requires !Decided(x.phase) && !Decided(y.phase) && Right(policy, c, db, x)
    ensures Right(policy, c, db, y)
  {
  }

  lemma RightAnyWrites(policy: Policy, c: Command, db: Rows, x: Open, y: Open)
    requires y == x.(writes := y.writes) && Right(policy, c, db, x)
    ensures Right(policy, c, db, y)
  {
  }

  lemma TrueAnyWrites(db: Rows, c: Command, x: Open, y: Open)
    requires y == x.(writes := y.writes) && x.phase == Working && ReadsTrue(db, c, x)
    ensures ReadsTrue(db, c, y)
  {
  }

  lemma WorkChanges(policy: Policy, s: State, t: Txn, e: Event)
    requires s.open.Keys == {t} && OwnLocks(s, t) && (e.TakeLock? || e.Change? || e.Insert?) && e.t == t
    ensures var s' := Step(policy, s, e);
            && s'.open.Keys == {t} && s'.db == s.db && s'.used == s.used && OwnLocks(s', t)
            && s'.open[t] == s.open[t].(writes := s'.open[t].writes)
  {
  }

  lemma LockedIsRead(s: State, s': State, t: Txn, q: Query, id: Id, x: Open, y: Open)
    requires LocksRead(s, x) && !Decided(x.phase) && s'.locks == s.locks + {Lock(id, t, ModeOf(q))} && q in x.read
    requires id in s.db && y.read == x.read[q := With(x.read[q], id, s.db[id])]
    ensures LocksRead(s', y)
  {
    forall l | l in s'.locks ensures Reads(y, l.row) {
      if l in s.locks {
        var p :| ReadsRow(x, p, l.row);
        assert ReadsRow(y, p, l.row);
      } else {
        assert ReadsRow(y, q, id);
      }
    }
  }

  lemma AllLocked(db: Rows, c: Command, x: Open)
    requires x.phase.Locking? && x.phase.todo == {} && ReadsTrue(db, c, x)
    ensures Exact(db, c, x)
  {
    var q := x.phase.q;
    assert x.read[q] == Finds(db, c, x.member, q);
  }

  lemma AnswerTrue(policy: Policy, db: Rows, c: Command, x: Open, y: Open, q: Query)
    requires Exact(db, c, x) && x.phase.Locking? && x.phase.q == q && AskedInOrder(x) && y == AnswerQuery(policy, x, c, q)
    ensures Exact(db, c, y)
  {
    forall p | p in y.read ensures y.read[p] == Finds(db, c, y.member, p) {
      if q == Member { FindsBefore(db, c, x.member, y.member, p); }
    }
  }

  lemma AnswerRight(policy: Policy, db: Rows, c: Command, x: Open, y: Open)
    requires Sound(policy, x) && x.command == Some(c) && c.wellFormed && x.phase.Locking? && Exact(db, c, x)
    requires y == AnswerQuery(policy, x, c, x.phase.q) && Sound(policy, y) && Exact(db, c, y)
    ensures Right(policy, c, db, y)
  {
    if y.phase == Denied { DenialIsRight(policy, db, c, x, y.at); }
    else if y.phase == Working { QueriesDecide(policy, db, c, y, map[], y.at); }
  }

  lemma SoloAnswer(policy: Policy, c: Command, db: Rows, s: State, t: Txn)
    requires Solo(policy, c, db, s, t) && s.open[t].phase.Locking? && s.open[t].phase.todo == {}
    ensures Solo(policy, c, db, Step(policy, s, Answer(t)), t)
    ensures Step(policy, s, Answer(t)).open[t] == AnswerQuery(policy, s.open[t], c, s.open[t].phase.q)
  {
    var x, s' := s.open[t], Step(policy, s, Answer(t));
    AnswerChanges(policy, c, s, t);
    AnswerKeeps(policy, c, db, x, s'.open[t]);
    SameReads(s, s', x, s'.open[t]);
  }

  lemma AnswerChanges(policy: Policy, c: Command, s: State, t: Txn)
    requires s.open.Keys == {t} && OwnLocks(s, t) && s.open[t].command == Some(c)
    requires s.open[t].phase.Locking? && s.open[t].phase.todo == {}
    ensures var s' := Step(policy, s, Answer(t));
            && s'.open.Keys == {t} && s'.db == s.db && s'.used == s.used && s'.locks == s.locks && OwnLocks(s', t)
            && s'.open[t] == AnswerQuery(policy, s.open[t], c, s.open[t].phase.q) && s'.open[t].command == Some(c)
  {
  }

  lemma AnswerKeeps(policy: Policy, c: Command, db: Rows, x: Open, y: Open)
    requires Sound(policy, x) && x.command == Some(c) && c.wellFormed && x.phase.Locking? && x.phase.todo == {} && ReadsTrue(db, c, x)
    requires y == AnswerQuery(policy, x, c, x.phase.q)
    ensures Sound(policy, y) && ReadsTrue(db, c, y) && Right(policy, c, db, y) && y.read == x.read
  {
    AllLocked(db, c, x);
    SoundAnswer(policy, x);
    AnswerTrue(policy, db, c, x, y, x.phase.q);
    AnswerRight(policy, db, c, x, y);
  }

  lemma SameReads(s: State, s': State, x: Open, y: Open)
    requires LocksRead(s, x) && !Decided(x.phase) && s'.locks == s.locks && y.read == x.read
    ensures LocksRead(s', y)
  {
    forall l | l in s'.locks ensures Reads(y, l.row) {
      var q :| ReadsRow(x, q, l.row);
      assert ReadsRow(y, q, l.row);
    }
  }

  lemma ClockRight(policy: Policy, db: Rows, c: Command, x: Open, y: Open, now: int)
    requires Sound(policy, x) && x.command == Some(c) && c.wellFormed && x.phase == Timing && Exact(db, c, x)
    requires y == x.(at := now, phase := if Entitled(RowsOf(x, Base), now) then Working else Denied)
    ensures Right(policy, c, db, y)
  {
    BaseAsked(policy, c, x);
    ReadsBase(db, c, x);
    QueriesDecide(policy, db, c, x, RowsOf(x, Base), now);
  }

  lemma SoloClock(policy: Policy, c: Command, db: Rows, s: State, t: Txn)
    requires Solo(policy, c, db, s, t) && s.open[t].phase == Timing
    ensures Solo(policy, c, db, Step(policy, s, ReadClock(t)), t)
  {
    var x, y := s.open[t], Step(policy, s, ReadClock(t)).open[t];
    SoundClock(policy, x, s.now);
    ClockRight(policy, db, c, x, y, s.now);
  }

  /** At work, nothing a command does changes its decision or the tables. */
  lemma SoloWork(policy: Policy, c: Command, db: Rows, s: State, t: Txn, e: Event)
    requires Solo(policy, c, db, s, t) && s.open[t].phase == Working
    requires (e.TakeLock? || e.Change? || e.Insert?) && e.t == t
    ensures Solo(policy, c, db, Step(policy, s, e), t)
  {
    WorkChanges(policy, s, t, e);
    WriterSound(policy, s, e);
    RightAnyWrites(policy, c, db, s.open[t], Step(policy, s, e).open[t]);
    TrueAnyWrites(db, c, s.open[t], Step(policy, s, e).open[t]);
  }

  lemma SoloIdle(policy: Policy, s: State, t: Txn, e: Event)
    requires t in s.used && t in s.open && Doer(e) == Some(t) && !e.Commit? && !e.Rollback?
    requires s.open[t].phase.Asking? ==> !e.Ask?
    requires s.open[t].phase.Locking? ==> !(e.LockNext? && e.id in s.open[t].phase.todo) && (s.open[t].phase.todo == {} ==> !e.Answer?)
    requires s.open[t].phase == Timing ==> !e.ReadClock?
    requires s.open[t].phase == Working ==> !e.TakeLock? && !e.Change? && !e.Insert?
    ensures Step(policy, s, e) == s
  {
  }

  lemma SoloEnds(policy: Policy, s: State, t: Txn, e: Event)
    requires s.open.Keys == {t} && (e == Commit(t) || e == Rollback(t))
    ensures Step(policy, s, e) == s || Step(policy, s, e).open == map[]
    ensures t in s.used ==> t in Step(policy, s, e).used
  {
  }

  /** Whatever a command alone does, it stays true to the tables until it ends. */
  lemma SoloStep(policy: Policy, c: Command, db: Rows, s: State, t: Txn, e: Event)
    requires Solo(policy, c, db, s, t) && (e.Elapse? || e.t == t)
    ensures var s' := Step(policy, s, e); Solo(policy, c, db, s', t) || (s'.open == map[] && t in s'.used)
  {
    var p := s.open[t].phase;
    if e.Elapse? { assert Solo(policy, c, db, Step(policy, s, e), t); }
    else if e.Commit? || e.Rollback? { SoloEnds(policy, s, t, e); }
    else if p.Asking? && e.Ask? { SoloAsk(policy, c, db, s, t); }
    else if p.Locking? && e.LockNext? && e.id in p.todo { SoloLock(policy, c, db, s, t, e.id); }
    else if p.Locking? && e.Answer? && p.todo == {} { SoloAnswer(policy, c, db, s, t); }
    else if p == Timing && e.ReadClock? { SoloClock(policy, c, db, s, t); }
    else if p == Working && (e.TakeLock? || e.Change? || e.Insert?) { SoloWork(policy, c, db, s, t, e); }
    else { SoloIdle(policy, s, t, e); }
  }

  // ----- every run, and some run -----

  /** Every event is this command's own, or time passing. */
  ghost predicate OnlyOwn(events: seq<Event>, t: Txn) { forall i :: 0 <= i < |events| ==> events[i].Elapse? || events[i].t == t }

  lemma EndedStays(policy: Policy, s: State, t: Txn, e: Event)
    requires s.open == map[] && t in s.used && (e.Elapse? || e.t == t)
    ensures Step(policy, s, e).open == map[] && t in Step(policy, s, e).used
  {
  }

  lemma {:induction false} SoloRun(policy: Policy, c: Command, db: Rows, s: State, t: Txn, events: seq<Event>)
    requires Solo(policy, c, db, s, t) || (s.open == map[] && t in s.used)
    requires OnlyOwn(events, t)
    ensures var s' := Run(Steps(policy), s, events); Solo(policy, c, db, s', t) || (s'.open == map[] && t in s'.used)
    decreases |events|
  {
    if events != [] {
      var e := events[0];
      assert e.Elapse? || e.t == t;
      if Solo(policy, c, db, s, t) { SoloStep(policy, c, db, s, t, e); } else { EndedStays(policy, s, t, e); }
      assert OnlyOwn(events[1..], t);
      SoloRun(policy, c, db, Step(policy, s, e), t, events[1..]);
    }
  }

  /** Nobody is about. */
  ghost predicate Nobody(s: State, t: Txn) { s.open == map[] && s.locks == {} && t !in s.used }

  lemma SoloBegins(policy: Policy, s: State, t: Txn, c: Command)
    requires Nobody(s, t)
    ensures Solo(policy, c, s.db, Step(policy, s, BeginCommand(t, c)), t)
  {
    SoundStart(policy, c);
    GrantedIsItsParts(policy, c, s.db, 0);
  }

  /** In every run in which only this command acts, from any state with nobody about, it is granted only what the tables
  give at the instant it read, and denied only what they do not. */
  lemma AloneIsNeverWrong(policy: Policy, s: State, t: Txn, c: Command, events: seq<Event>)
    requires Nobody(s, t) && OnlyOwn(events, t)
    ensures var s' := Run(Steps(policy), Step(policy, s, BeginCommand(t, c)), events);
            t in s'.open ==>
              && (s'.open[t].phase == Working ==> GrantedOn(policy, c, s.db, s'.open[t].at))
              && (s'.open[t].phase == Denied ==> !GrantedOn(policy, c, s.db, s'.open[t].at))
  {
    SoloBegins(policy, s, t, c);
    SoloRun(policy, c, s.db, Step(policy, s, BeginCommand(t, c)), t, events);
  }

  predicate AtClock(p: Phase) { p == Timing || Decided(p) }

  ghost function Left(x: Open): nat { if AtClock(x.phase) then 0 else 8 - Rank(x.phase.q) }

  ghost function Todo(x: Open): nat { if x.phase.Locking? then |x.phase.todo| else 0 }

  /** The tables give everything but base access. */
  ghost predicate MayReachClock(policy: Policy, c: Command, db: Rows) { ScopeOn(c, db) && SomeMemberMay(policy, c, db) }

  /** x is nearer to the clock than y. */
  ghost predicate Nearer(x: Open, y: Open) {
    || Left(x) < Left(y)
    || (Left(x) == Left(y) && y.phase.Asking? && x.phase.Locking?)
    || (Left(x) == Left(y) && y.phase.Locking? && x.phase.Locking? && Todo(x) < Todo(y))
  }

  /** One statement further: nearer to the clock, and denied or done only rightly. */
  ghost predicate Advanced(policy: Policy, c: Command, db: Rows, s: State, s': State, t: Txn) {
    && t in s.open && Solo(policy, c, db, s', t) && s'.now == s.now && s'.used == s.used && Nearer(s'.open[t], s.open[t])
    && (s'.open[t].phase == Denied ==> !MayReachClock(policy, c, db))
    && (s'.open[t].phase == Working ==> !c.requireBase)
  }

  lemma ProgressAsk(policy: Policy, c: Command, db: Rows, s: State, t: Txn)
    requires Solo(policy, c, db, s, t) && s.open[t].phase.Asking?
    ensures Advanced(policy, c, db, s, Step(policy, s, Ask(t)), t)
  {
    SoloAsk(policy, c, db, s, t);
    TimeStands(policy, s, Ask(t));
  }

  lemma ProgressLock(policy: Policy, c: Command, db: Rows, s: State, t: Txn, id: Id)
    requires Solo(policy, c, db, s, t) && s.open[t].phase.Locking? && id in s.open[t].phase.todo
    ensures Advanced(policy, c, db, s, Step(policy, s, LockNext(t, id)), t)
  {
    SoloLock(policy, c, db, s, t, id);
    TimeStands(policy, s, LockNext(t, id));
    assert |s.open[t].phase.todo - {id}| < |s.open[t].phase.todo|;
  }

  lemma TimeStands(policy: Policy, s: State, e: Event)
    requires e.Ask? || e.LockNext? || e.Answer?
    ensures Step(policy, s, e).now == s.now && Step(policy, s, e).used == s.used
  {
  }

  lemma ProgressAnswer(policy: Policy, c: Command, db: Rows, s: State, t: Txn)
    requires Solo(policy, c, db, s, t) && s.open[t].phase.Locking? && s.open[t].phase.todo == {}
    ensures Advanced(policy, c, db, s, Step(policy, s, Answer(t)), t)
  {
    SoloAnswer(policy, c, db, s, t);
    TimeStands(policy, s, Answer(t));
    AnswerMoves(policy, c, s.open[t]);
    if !Passes(policy, c, s.open[t], s.open[t].phase.q) { AnswerDenies(policy, c, db, s.open[t]); }
  }

  /** Some statement brings a command alone nearer to the clock. */
  lemma Progress(policy: Policy, c: Command, db: Rows, s: State, t: Txn)
    requires Solo(policy, c, db, s, t) && !AtClock(s.open[t].phase)
    ensures exists e :: Advanced(policy, c, db, s, Step(policy, s, e), t)
  {
    if s.open[t].phase.Asking? {
      ProgressAsk(policy, c, db, s, t);
    } else if s.open[t].phase.todo == {} {
      ProgressAnswer(policy, c, db, s, t);
    } else {
      var id :| id in s.open[t].phase.todo;
      ProgressLock(policy, c, db, s, t, id);
    }
  }

  lemma AnswerMoves(policy: Policy, c: Command, x: Open)
    requires x.phase.Locking?
    ensures var y := AnswerQuery(policy, x, c, x.phase.q);
            && Left(y) < Left(x) && (y.phase == Working ==> !c.requireBase)
            && (y.phase == Denied <==> !Passes(policy, c, x, x.phase.q))
  {
  }

  lemma AnswerDenies(policy: Policy, c: Command, db: Rows, x: Open)
    requires x.phase.Locking? && x.phase.todo == {} && ReadsTrue(db, c, x) && AskedInOrder(x) && MemberKnown(x) && AllPassed(policy, c, x)
    requires !Passes(policy, c, x, x.phase.q)
    ensures !MayReachClock(policy, c, db)
  {
    AllLocked(db, c, x);
    DenialHasPart(policy, db, c, x);
  }

  /** A command alone reaches the clock, or is denied before it because the tables do not give the rest. */
  lemma {:induction false} ToTheClock(policy: Policy, c: Command, db: Rows, s: State, t: Txn) returns (events: seq<Event>)
    requires Solo(policy, c, db, s, t)
    requires s.open[t].phase == Denied ==> !MayReachClock(policy, c, db)
    requires s.open[t].phase == Working ==> !c.requireBase
    ensures var s' := Run(Steps(policy), s, events);
            && Solo(policy, c, db, s', t) && s'.now == s.now && s'.used == s.used && AtClock(s'.open[t].phase)
            && (s'.open[t].phase == Denied ==> !MayReachClock(policy, c, db))
            && (s'.open[t].phase == Working ==> !c.requireBase)
    decreases Left(s.open[t]), if s.open[t].phase.Asking? then 1 else 0, Todo(s.open[t])
  {
    events := [];
    if !AtClock(s.open[t].phase) {
      Progress(policy, c, db, s, t);
      var e :| Advanced(policy, c, db, s, Step(policy, s, e), t);
      var rest := ToTheClock(policy, c, db, Step(policy, s, e), t);
      events := [e] + rest;
      RunFirst(Steps(policy), s, e, rest);
    }
  }

  lemma GrantedAnyTime(policy: Policy, c: Command, db: Rows, at: int, now: int)
    requires !c.requireBase || at == now
    ensures GrantedOn(policy, c, db, at) <==> GrantedOn(policy, c, db, now)
  {
    GrantedIsItsParts(policy, c, db, at);
    GrantedIsItsParts(policy, c, db, now);
  }

  /** The run has come to this decision, on these tables. */
  ghost predicate Decides(policy: Policy, s: State, t: Txn, granted: bool, events: seq<Event>) {
    var s' := Run(Steps(policy), s, events);
    t in s'.open && s'.db == s.db && s'.open[t].phase == if granted then Working else Denied
  }

  lemma NotGranted(policy: Policy, c: Command, db: Rows, now: int)
    requires !MayReachClock(policy, c, db)
    ensures !GrantedOn(policy, c, db, now)
  {
    GrantedIsItsParts(policy, c, db, now);
  }

  lemma ClockStep(policy: Policy, c: Command, db: Rows, s: State, t: Txn)
    requires Solo(policy, c, db, s, t) && s.open[t].phase == Timing
    ensures Decides(policy, s, t, GrantedOn(policy, c, db, s.now), [ReadClock(t)])
  {
    var y := Step(policy, s, ReadClock(t)).open[t];
    ClockRight(policy, db, c, s.open[t], y, s.now);
    RunFirst(Steps(policy), s, ReadClock(t), []);
  }

  lemma AlreadyRight(policy: Policy, c: Command, db: Rows, x: Open, now: int)
    requires Decided(x.phase) && Right(policy, c, db, x)
    requires x.phase == Denied ==> !MayReachClock(policy, c, db)
    requires x.phase == Working ==> !c.requireBase
    ensures x.phase == if GrantedOn(policy, c, db, now) then Working else Denied
  {
    if x.phase == Denied { NotGranted(policy, c, db, now); } else { GrantedAnyTime(policy, c, db, x.at, now); }
  }

  lemma DecidedAtClock(policy: Policy, c: Command, db: Rows, s: State, t: Txn) returns (events: seq<Event>)
    requires Solo(policy, c, db, s, t) && AtClock(s.open[t].phase)
    requires s.open[t].phase == Denied ==> !MayReachClock(policy, c, db)
    requires s.open[t].phase == Working ==> !c.requireBase
    ensures Decides(policy, s, t, GrantedOn(policy, c, db, s.now), events)
  {
    events := [];
    if s.open[t].phase == Timing {
      events := [ReadClock(t)];
      ClockStep(policy, c, db, s, t);
    } else {
      AlreadyRight(policy, c, db, s.open[t], s.now);
    }
  }

  lemma IllFormed(policy: Policy, c: Command, db: Rows)
    requires !c.wellFormed
    ensures !MayReachClock(policy, c, db)
  {
  }

  lemma BeginsRight(policy: Policy, s: State, t: Txn, c: Command)
    requires Nobody(s, t)
    ensures var s1 := Step(policy, s, BeginCommand(t, c));
            && Solo(policy, c, s.db, s1, t) && s1.db == s.db && s1.now == s.now && s1.used == s.used + {t} && s1.open[t].phase != Working
            && (s1.open[t].phase == Denied ==> !MayReachClock(policy, c, s.db))
  {
    SoloBegins(policy, s, t, c);
    if !c.wellFormed { IllFormed(policy, c, s.db); }
  }

  /** With nobody else about a command can always run to a decision, and it is the one the tables call for. */
  lemma AloneDecidesRightly(policy: Policy, s: State, t: Txn, c: Command)
    requires Nobody(s, t)
    ensures exists events :: Decides(policy, s, t, GrantedOn(policy, c, s.db, s.now), [BeginCommand(t, c)] + events)
  {
    var s1 := Step(policy, s, BeginCommand(t, c));
    BeginsRight(policy, s, t, c);
    var most := ToTheClock(policy, c, s.db, s1, t);
    var s2 := Run(Steps(policy), s1, most);
    var last := DecidedAtClock(policy, c, s.db, s2, t);
    RunConcat(Steps(policy), s1, most, last);
    RunFirst(Steps(policy), s, BeginCommand(t, c), most + last);
    assert Decides(policy, s, t, GrantedOn(policy, c, s.db, s.now), [BeginCommand(t, c)] + (most + last));
  }

  // ----- what can slip in -----

  /** Another transaction edits a row nobody holds, and commits. */
  function Edit(u: Txn, id: Id, row: Row): seq<Event> {
    [BeginOther(u)] + ([TakeLock(u, id, NoKeyUpdate)] + ([Change(u, id, Some(row))] + [Commit(u)]))
  }

  lemma EditCommits(policy: Policy, s: State, u: Txn, id: Id, row: Row)
    requires u !in s.used && u !in s.open && id in s.db && (forall l :: l in s.locks ==> l.row != id && l.holder != u)
    requires SameTable(s.db[id], row) && Parent(row) == Parent(s.db[id])
    ensures var s' := Run(Steps(policy), s, Edit(u, id, row));
            s'.db == s.db[id := row] && s'.open == s.open && s'.now == s.now
  {
    var s1 := Step(policy, s, BeginOther(u));
    var s2 := Step(policy, s1, TakeLock(u, id, NoKeyUpdate));
    var s3 := Step(policy, s2, Change(u, id, Some(row)));
    RunFirst(Steps(policy), s, BeginOther(u), [TakeLock(u, id, NoKeyUpdate)] + ([Change(u, id, Some(row))] + [Commit(u)]));
    RunFirst(Steps(policy), s1, TakeLock(u, id, NoKeyUpdate), [Change(u, id, Some(row))] + [Commit(u)]);
    RunFirst(Steps(policy), s2, Change(u, id, Some(row)), [Commit(u)]);
    RunFirst(Steps(policy), s3, Commit(u), []);
    EditSteps(policy, s, u, id, row);
  }

  lemma EditSteps(policy: Policy, s: State, u: Txn, id: Id, row: Row)
    requires u !in s.used && u !in s.open && id in s.db && (forall l :: l in s.locks ==> l.row != id && l.holder != u)
    requires SameTable(s.db[id], row) && Parent(row) == Parent(s.db[id])
    ensures var s1 := Step(policy, s, BeginOther(u));
            var s2 := Step(policy, s1, TakeLock(u, id, NoKeyUpdate));
            var s3 := Step(policy, s2, Change(u, id, Some(row)));
            var s' := Step(policy, s3, Commit(u));
            s'.db == s.db[id := row] && s'.open == s.open && s'.now == s.now
  {
    var s1 := Step(policy, s, BeginOther(u));
    var s2 := Step(policy, s1, TakeLock(u, id, NoKeyUpdate));
    var s3 := Step(policy, s2, Change(u, id, Some(row)));
    assert s2 == s1.(locks := s.locks + {Lock(id, u, NoKeyUpdate)});
    assert s3.open[u].writes == map[id := Some(row)];
    assert Overlay(s.db, map[id := Some(row)]) == s.db[id := row];
  }

  /** An entitlement outside the command's base scope is not locked by a command alone that has not decided. */
  lemma OutsideIsFree(policy: Policy, c: Command, db: Rows, s: State, t: Txn, id: Id)
    requires Solo(policy, c, db, s, t) && s.open[t].phase == Timing
    requires id in db && db[id].Entitlement? && !BaseScope(c, db[id].scope)
    ensures forall l :: l in s.locks ==> l.row != id
  {
    forall l | l in s.locks ensures l.row != id {
      var q :| ReadsRow(s.open[t], q, l.row);
      ReadMatches(db, c, s.open[t], q, l.row);
    }
  }

  lemma ReadMatches(db: Rows, c: Command, x: Open, q: Query, id: Id)
    requires Exact(db, c, x) && ReadsRow(x, q, id)
    ensures id in db && Matches(c, x.member, q, id, db[id])
  {
    FindsMatching(db, c, x.member, q);
  }

  function Suspension(c: Command): Row { Entitlement(Scope(c.organization, Pms, PropertyManagement, None), Suspended, None, None) }

  lemma SuspensionBlocks(c: Command, db: Rows, id: Id, at: int)
    requires id in db && db[id] == Suspension(c)
    ensures !BaseAccess(c, db, at)
  {
    assert IsBase(c, db[id]) && InForce(db[id], at);
  }

  lemma ClockGrants(policy: Policy, c: Command, db: Rows, x: Open, now: int)
    requires Sound(policy, x) && x.command == Some(c) && x.phase == Timing && Exact(db, c, x) && Entitled(BaseRows(db, c), now)
    ensures Entitled(RowsOf(x, Base), now)
  {
    BaseAsked(policy, c, x);
    ReadsBase(db, c, x);
  }

  /** The command is granted on tables that, at the instant it read, do not give it base access. */
  ghost predicate GrantedAmiss(s: State, t: Txn, c: Command) {
    MayWrite(s, t) && s.open[t].command == Some(c) && !BaseAccess(c, s.db, s.open[t].at)
  }

  lemma ClockAfterEdit(policy: Policy, s: State, t: Txn, c: Command, id: Id)
    requires t in s.open && s.open[t].phase == Timing && s.open[t].command == Some(c) && Entitled(RowsOf(s.open[t], Base), s.now)
    requires id in s.db && s.db[id] == Suspension(c)
    ensures GrantedAmiss(Step(policy, s, ReadClock(t)), t, c)
  {
    SuspensionBlocks(c, s.db, id, s.now);
  }

  lemma SlipRun(policy: Policy, s: State, t: Txn, u: Txn, c: Command, id: Id)
    requires t in s.open && s.open[t].phase == Timing && s.open[t].command == Some(c) && Entitled(RowsOf(s.open[t], Base), s.now)
    requires u !in s.used && u !in s.open && id in s.db && (forall l :: l in s.locks ==> l.row != id && l.holder != u)
    requires SameTable(s.db[id], Suspension(c)) && Parent(Suspension(c)) == Parent(s.db[id])
    ensures GrantedAmiss(Run(Steps(policy), s, Edit(u, id, Suspension(c)) + [ReadClock(t)]), t, c)
  {
    EditCommits(policy, s, u, id, Suspension(c));
    var s1 := Run(Steps(policy), s, Edit(u, id, Suspension(c)));
    RunConcat(Steps(policy), s, Edit(u, id, Suspension(c)), [ReadClock(t)]);
    RunFirst(Steps(policy), s1, ReadClock(t), []);
    ClockAfterEdit(policy, s1, t, c, id);
  }

  /** At the clock, before it is read, an entitlement of the organization outside the base scope can be moved into it as
  suspended and committed; the command is granted all the same. */
  lemma SlipAtClock(policy: Policy, c: Command, db: Rows, s: State, t: Txn, u: Txn, id: Id)
    requires Solo(policy, c, db, s, t) && s.open[t].phase == Timing && Entitled(BaseRows(db, c), s.now) && u !in s.used && u != t
    requires id in db && db[id].Entitlement? && db[id].scope.organization == c.organization && !BaseScope(c, db[id].scope)
    ensures GrantedAmiss(Run(Steps(policy), s, Edit(u, id, Suspension(c)) + [ReadClock(t)]), t, c)
  {
    OutsideIsFree(policy, c, db, s, t, id);
    ClockGrants(policy, c, db, s.open[t], s.now);
    SlipRun(policy, s, t, u, c, id);
  }

  lemma GrantedReachesClock(policy: Policy, db: Rows, c: Command, t: Txn) returns (events: seq<Event>)
    requires c.requireBase && MayReachClock(policy, c, db)
    ensures var s := Reached(policy, db, events); Solo(policy, c, db, s, t) && s.open[t].phase == Timing && s.now == 0 && s.used == {t}
  {
    var s := Initial(db);
    var s1 := Step(policy, s, BeginCommand(t, c));
    BeginsRight(policy, s, t, c);
    var most := ToTheClock(policy, c, db, s1, t);
    events := [BeginCommand(t, c)] + most;
    RunFirst(Steps(policy), s, BeginCommand(t, c), most);
  }

  lemma SlipFromParts(policy: Policy, db: Rows, c: Command, t: Txn, u: Txn, id: Id)
    requires c.requireBase && MayReachClock(policy, c, db) && Entitled(BaseRows(db, c), 0) && t != u
    requires id in db && db[id].Entitlement? && db[id].scope.organization == c.organization && !BaseScope(c, db[id].scope)
    ensures exists events :: GrantedAmiss(Reached(policy, db, events), t, c)
  {
    var most := GrantedReachesClock(policy, db, c, t);
    var last := Edit(u, id, Suspension(c)) + [ReadClock(t)];
    SlipAtClock(policy, c, db, Reached(policy, db, most), t, u, id);
    ThenReached(policy, db, most, last);
    assert GrantedAmiss(Reached(policy, db, most + last), t, c);
  }

  lemma ThenReached(policy: Policy, db: Rows, x: seq<Event>, y: seq<Event>)
    ensures Reached(policy, db, x + y) == Run(Steps(policy), Reached(policy, db, x), y)
  {
    RunConcat(Steps(policy), Initial(db), x, y);
  }

  /** So arrivals do happen: from any tables that grant a command and hold an entitlement of its organization outside its
  base scope, some run grants the command on tables that, at the instant it read, do not give it base access. */
  lemma SuspensionSlipsIn(policy: Policy, db: Rows, c: Command, t: Txn, u: Txn, id: Id)
    requires c.requireBase && GrantedOn(policy, c, db, 0) && t != u
    requires id in db && db[id].Entitlement? && db[id].scope.organization == c.organization && !IsBase(c, db[id])
    ensures exists events :: GrantedAmiss(Reached(policy, db, events), t, c)
  {
    GrantedIsItsParts(policy, c, db, 0);
    BaseInColumns(db, c, 0);
    MatchesInColumns(c, None, id, db[id]);
    SlipFromParts(policy, db, c, t, u, id);
  }
}
