/** What every interleaving of owner commands with other transactions keeps: a command's authority still stands at the
instant it commits, a denied command writes nothing, and commands of one organization never overlap. */
module OwnerAuthority {
  import opened Options
  import opened OwnerTransactions

  // ----- one transaction by itself -----

  function Rank(q: Query): nat {
    match q
    case Org => 0 case Links => 1 case Member => 2 case Assigned => 3
    case RoleDef => 4 case Grants => 5 case Actor => 6 case Base => 7
  }

  function PhaseRank(p: Phase): nat {
    match p
    case Asking(q) => Rank(q)
    case Locking(q, _) => Rank(q)
    case Timing => 8
    case Working => 9
    case Denied => 10
  }

  predicate ReadsRow(x: Open, q: Query, id: Id) { q in x.read && id in x.read[q] }

  ghost predicate ReadsMatch(c: Command, x: Open) {
    forall q, id :: ReadsRow(x, q, id) ==> Matches(c, x.member, q, id, x.read[q][id])
  }

  /** Everything asked so far was answered well. */
  ghost predicate AllPassed(policy: Policy, c: Command, x: Open) {
    forall q :: Rank(q) < PhaseRank(x.phase) && (q == Base ==> c.requireBase) ==> q in x.read && Passes(policy, c, x, q)
  }

  predicate AskedInOrder(x: Open) {
    && (forall q :: q in x.read ==> Rank(q) < PhaseRank(x.phase) || (x.phase.Locking? && q == x.phase.q))
    && (x.phase.Locking? ==> x.phase.q in x.read)
  }

  predicate MemberKnown(x: Open) {
    && (x.member.Some? <==> PhaseRank(x.phase) > 2)
    && (x.member.Some? ==> Member in x.read && x.read[Member] == map[x.member.value.id := x.member.value.row])
  }

  ghost predicate Sound(policy: Policy, x: Open) {
    if x.command.None? then x.read == map[] && x.phase == Working
    else
      var c := x.command.value;
      && ReadsMatch(c, x)
      && (x.phase != Denied ==> AllPassed(policy, c, x) && AskedInOrder(x) && MemberKnown(x))
      && Tidy(c, x)
  }

  /** Nothing is written before authority is granted, and base access, where it is required, was active at an instant. */
  predicate Tidy(c: Command, x: Open) {
    && (x.phase != Working ==> x.writes == map[])
    && (7 <= PhaseRank(x.phase) <= 8 ==> c.requireBase)
    && (x.phase == Working && c.requireBase ==> Entitled(RowsOf(x, Base), x.at))
  }

  /** The same rows were read by all queries before one. */
  ghost predicate SameBefore(x: Open, y: Open, n: nat) {
    forall q :: Rank(q) < n ==> (q in x.read <==> q in y.read) && RowsOf(x, q) == RowsOf(y, q)
  }

  /** What a query had to pass depends on the rows read up to it alone. */
  lemma PassesFrame(policy: Policy, c: Command, x: Open, y: Open, q: Query)
    requires SameBefore(x, y, Rank(q) + 1)
    requires Rank(q) > 2 ==> x.member == y.member
    ensures Passes(policy, c, x, q) == Passes(policy, c, y, q)
  {
    if Rank(q) >= 5 {
      assert RowsOf(x, Assigned) == RowsOf(y, Assigned);
      assert RowsOf(x, RoleDef) == RowsOf(y, RoleDef);
      assert RowsOf(x, Grants) == RowsOf(y, Grants);
    }
    assert RowsOf(x, q) == RowsOf(y, q);
  }

  lemma PassedFrame(policy: Policy, c: Command, x: Open, y: Open)
    requires AllPassed(policy, c, x) && PhaseRank(y.phase) == PhaseRank(x.phase)
    requires SameBefore(x, y, PhaseRank(x.phase)) && x.member == y.member
    ensures AllPassed(policy, c, y)
  {
    forall q | Rank(q) < PhaseRank(y.phase) && (q == Base ==> c.requireBase) ensures q in y.read && Passes(policy, c, y, q) {
      assert q in x.read && Passes(policy, c, x, q);
      PassesFrame(policy, c, x, y, q);
    }
  }

  lemma MatchFrame(c: Command, x: Open, y: Open)
    requires ReadsMatch(c, x) && x.member == y.member && x.read == y.read
    ensures ReadsMatch(c, y)
  {
    forall q, id | ReadsRow(y, q, id) ensures Matches(c, y.member, q, id, y.read[q][id]) { assert ReadsRow(x, q, id); }
  }

  lemma MatchMore(c: Command, x: Open, y: Open, q0: Query, rows: Rows)
    requires ReadsMatch(c, x) && x.member == y.member && y.read == x.read[q0 := rows]
    requires forall id :: id in rows ==> Matches(c, x.member, q0, id, rows[id])
    ensures ReadsMatch(c, y)
  {
    forall q, id | ReadsRow(y, q, id) ensures Matches(c, y.member, q, id, y.read[q][id]) {
      assert q != q0 ==> ReadsRow(x, q, id);
    }
  }

  lemma OrderAsk(x: Open, y: Open, todo: set<Id>)
    requires x.phase.Asking? && AskedInOrder(x) && MemberKnown(x)
    requires y.phase == Locking(x.phase.q, todo) && y.member == x.member && y.read == x.read[x.phase.q := map[]]
    ensures AskedInOrder(y) && MemberKnown(y) && SameBefore(x, y, PhaseRank(x.phase))
  {
  }

  lemma SoundAsk(policy: Policy, c: Command, x: Open, y: Open, todo: set<Id>)
    requires Sound(policy, x) && x.command == Some(c) && x.phase.Asking?
    requires y == x.(phase := Locking(x.phase.q, todo), read := x.read[x.phase.q := map[]], since := y.since)
    ensures Sound(policy, y)
  {
    OrderAsk(x, y, todo);
    MatchMore(c, x, y, x.phase.q, map[]);
    PassedFrame(policy, c, x, y);
    assert Tidy(c, y);
  }

  lemma SoundLock(policy: Policy, x: Open, id: Id, row: Row, todo: set<Id>, children: set<Id>)
    requires Sound(policy, x) && x.command.Some? && x.phase.Locking?
    requires Matches(x.command.value, x.member, x.phase.q, id, row)
    ensures Sound(policy, x.(phase := Locking(x.phase.q, todo),
                             read := x.read[x.phase.q := RowsOf(x, x.phase.q)[id := row]], children := children))
  {
    var c, q := x.command.value, x.phase.q;
    var y := x.(phase := Locking(q, todo), read := x.read[q := RowsOf(x, q)[id := row]], children := children);
    forall i | i in RowsOf(x, q) ensures Matches(c, x.member, q, i, RowsOf(x, q)[i]) { assert ReadsRow(x, q, i); }
    MatchMore(c, x, y, q, RowsOf(x, q)[id := row]);
    PassedFrame(policy, c, x, y);
  }

  lemma SoundDrop(policy: Policy, x: Open, todo: set<Id>)
    requires Sound(policy, x) && x.command.Some? && x.phase.Locking?
    ensures Sound(policy, x.(phase := Locking(x.phase.q, todo)))
  {
    var y := x.(phase := Locking(x.phase.q, todo));
    MatchFrame(x.command.value, x, y);
    PassedFrame(policy, x.command.value, x, y);
  }

  lemma SoleOf(rows: Rows)
    requires |rows| == 1
    ensures Sole(rows).Some? && rows == map[Sole(rows).value.id := Sole(rows).value.row]
  {
    var id :| id in rows;
    assert |rows.Keys - {id}| == 0;
    assert rows.Keys == {id};
  }

  /** The answered query joins those that passed. */
  lemma PassedAnswer(policy: Policy, c: Command, x: Open, y: Open)
    requires AllPassed(policy, c, x) && AskedInOrder(x) && x.phase.Locking? && Passes(policy, c, x, x.phase.q)
    requires y.read == x.read && y.phase == Next(c, x.phase.q) && (x.phase.q != Member ==> y.member == x.member)
    ensures AllPassed(policy, c, y)
  {
    forall q | Rank(q) < PhaseRank(y.phase) && (q == Base ==> c.requireBase) ensures q in y.read && Passes(policy, c, y, q) {
      assert q in x.read && Passes(policy, c, x, q);
      PassesFrame(policy, c, x, y, q);
    }
  }

  lemma MatchAnswer(c: Command, x: Open, y: Open)
    requires ReadsMatch(c, x) && AskedInOrder(x) && x.phase.Locking? && x.phase.q == Member && y.read == x.read
    ensures ReadsMatch(c, y)
  {
    forall q, id | ReadsRow(y, q, id) ensures Matches(c, y.member, q, id, y.read[q][id]) {
      assert ReadsRow(x, q, id) && Rank(q) <= 2;
    }
  }

  lemma OrderAnswer(policy: Policy, c: Command, x: Open)
    requires x.phase.Locking? && AskedInOrder(x) && MemberKnown(x) && Passes(policy, c, x, x.phase.q)
    ensures var y := AnswerQuery(policy, x, c, x.phase.q); AskedInOrder(y) && MemberKnown(y)
  {
    if x.phase.q == Member { SoleOf(RowsOf(x, Member)); }
  }

  lemma MatchAfterAnswer(policy: Policy, c: Command, x: Open)
    requires ReadsMatch(c, x) && AskedInOrder(x) && x.phase.Locking?
    ensures ReadsMatch(c, AnswerQuery(policy, x, c, x.phase.q))
  {
    var y := AnswerQuery(policy, x, c, x.phase.q);
    if x.phase.q == Member { MatchAnswer(c, x, y); } else { MatchFrame(c, x, y); }
  }

  lemma TidyAnswer(policy: Policy, c: Command, x: Open)
    requires Tidy(c, x) && x.phase.Locking?
    ensures Tidy(c, AnswerQuery(policy, x, c, x.phase.q))
  {
  }

  lemma SoundAnswer(policy: Policy, x: Open)
    requires Sound(policy, x) && x.command.Some? && x.phase.Locking?
    ensures Sound(policy, AnswerQuery(policy, x, x.command.value, x.phase.q))
  {
    var c := x.command.value;
    var y := AnswerQuery(policy, x, c, x.phase.q);
    MatchAfterAnswer(policy, c, x);
    TidyAnswer(policy, c, x);
    if Passes(policy, c, x, x.phase.q) {
      PassedAnswer(policy, c, x, y);
      OrderAnswer(policy, c, x);
    }
  }

  lemma SoundClock(policy: Policy, x: Open, now: int)
    requires Sound(policy, x) && x.phase == Timing
    ensures Sound(policy, x.(at := now, phase := if Entitled(RowsOf(x, Base), now) then Working else Denied))
  {
    var c, y := x.command.value, x.(at := now, phase := if Entitled(RowsOf(x, Base), now) then Working else Denied);
    MatchFrame(c, x, y);
    if y.phase == Working { PassedClock(policy, c, x, y); }
  }

  lemma PassedClock(policy: Policy, c: Command, x: Open, y: Open)
    requires AllPassed(policy, c, x) && x.phase == Timing && y.phase == Working && x.read == y.read && x.member == y.member
    ensures AllPassed(policy, c, y)
  {
    forall q | Rank(q) < 9 && (q == Base ==> c.requireBase) ensures q in y.read && Passes(policy, c, y, q) {
      assert q in x.read && Passes(policy, c, x, q);
      PassesFrame(policy, c, x, y, q);
    }
  }

  lemma SoundWrite(policy: Policy, x: Open, writes: map<Id, Option<Row>>)
    requires Sound(policy, x) && x.phase == Working
    ensures Sound(policy, x.(writes := writes))
  {
    if x.command.Some? {
      MatchFrame(x.command.value, x, x.(writes := writes));
      PassedFrame(policy, x.command.value, x, x.(writes := writes));
    }
  }

  ghost predicate AllSound(policy: Policy, s: State) {
    forall t :: t in s.open ==> Sound(policy, s.open[t])
  }

  lemma SoundStart(policy: Policy, c: Command)
    ensures Sound(policy, FRESH)
    ensures Sound(policy, FRESH.(command := Some(c), phase := if c.wellFormed then Asking(Org) else Denied))
  {
  }

  /** The transaction an event belongs to. */
  function Doer(e: Event): Option<Txn> { if e.Elapse? then None else Some(e.t) }

  /** A step leaves every other open transaction as it was. */
  lemma OthersStay(policy: Policy, s: State, e: Event, t: Txn)
    requires t in Step(policy, s, e).open && Doer(e) != Some(t)
    ensures t in s.open && Step(policy, s, e).open[t] == s.open[t]
  {
  }

  lemma SoundLockRow(policy: Policy, s: State, t: Txn, id: Id)
    requires t in s.open && Sound(policy, s.open[t]) && s.open[t].command.Some? && s.open[t].phase.Locking?
    ensures var x := s.open[t];
            var s' := LockRow(s, t, x, x.command.value, x.phase.q, x.phase.todo, id);
            t in s'.open && Sound(policy, s'.open[t])
  {
    var x := s.open[t];
    var c, q, todo := x.command.value, x.phase.q, x.phase.todo - {id};
    SoundDrop(policy, x, todo);
    if id in s.db && Matches(c, x.member, q, id, s.db[id]) {
      SoundLock(policy, x, id, s.db[id], todo, x.children);
      SoundLock(policy, x, id, s.db[id], todo, OrgRows(s.db, c.organization));
    }
  }

  lemma ReaderSound(policy: Policy, s: State, e: Event)
    requires e.Ask? || e.LockNext? || e.Answer? || e.ReadClock?
    requires e.t in s.open && Sound(policy, s.open[e.t]) && e.t in Step(policy, s, e).open
    ensures Sound(policy, Step(policy, s, e).open[e.t])
  {
    var x := s.open[e.t];
    if e.Ask? && x.command.Some? && x.phase.Asking? {
      var todo := Candidates(s.db, x.command.value, x.member, x.phase.q);
      var y := x.(phase := Locking(x.phase.q, todo), read := x.read[x.phase.q := map[]], since := |s.moves|);
      SoundAsk(policy, x.command.value, x, y, todo);
    } else if e.LockNext? && x.command.Some? && x.phase.Locking? { SoundLockRow(policy, s, e.t, e.id); }
    else if e.Answer? && x.command.Some? && x.phase.Locking? { SoundAnswer(policy, x); }
    else if e.ReadClock? && x.phase == Timing { SoundClock(policy, x, s.now); }
  }

  lemma WriterSound(policy: Policy, s: State, e: Event)
    requires e.TakeLock? || e.Change? || e.Insert?
    requires e.t in s.open && Sound(policy, s.open[e.t]) && e.t in Step(policy, s, e).open
    ensures Sound(policy, Step(policy, s, e).open[e.t])
  {
    if e.Change? && MayWrite(s, e.t) { SoundWrite(policy, s.open[e.t], s.open[e.t].writes[e.id := e.row]); }
    if e.Insert? && MayWrite(s, e.t) { SoundWrite(policy, s.open[e.t], s.open[e.t].writes[e.id := Some(e.added)]); }
  }

  lemma ActorSound(policy: Policy, s: State, e: Event)
    requires AllSound(policy, s) && !e.Elapse? && e.t in Step(policy, s, e).open
    ensures Sound(policy, Step(policy, s, e).open[e.t])
  {
    assert e.t in s.open ==> Sound(policy, s.open[e.t]);
    match e
    case BeginCommand(t, c) => SoundStart(policy, c);
    case BeginOther(t) =>
    case Commit(t) =>
    case Rollback(t) =>
    case TakeLock(_, _, _) => WriterSound(policy, s, e);
    case Change(_, _, _) => WriterSound(policy, s, e);
    case Insert(_, _, _) => WriterSound(policy, s, e);
    case _ => ReaderSound(policy, s, e);
  }

  lemma SoundStep(policy: Policy, s: State, e: Event)
    requires AllSound(policy, s)
    ensures AllSound(policy, Step(policy, s, e))
  {
    var s' := Step(policy, s, e);
    forall t | t in s'.open ensures Sound(policy, s'.open[t]) {
      if Doer(e) == Some(t) { ActorSound(policy, s, e); } else { OthersStay(policy, s, e, t); }
    }
  }
}
