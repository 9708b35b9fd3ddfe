/** What the lock table keeps: rows an open owner command has read stay as they are, its organization gains no rows,
and no suspended base entitlement appears unseen. */
module OwnerIsolation {
  import opened Options
  import opened OwnerTransactions
  import opened OwnerAuthority

  // ----- locks -----

  ghost predicate LocksOk(s: State) {
    && (forall l, l' :: l in s.locks && l' in s.locks && l.row == l'.row && l.holder != l'.holder ==> !Conflict(l.mode, l'.mode))
    && (forall l :: l in s.locks ==> l.holder in s.open)
  }

  lemma LockAdded(s: State, t: Txn, id: Id, mode: Mode, s': State)
    requires LocksOk(s) && MayLock(s, t, id, mode) && t in s.open
    requires s'.locks == s.locks + {Lock(id, t, mode)} && s'.open.Keys == s.open.Keys
    ensures LocksOk(s')
  {
    forall l, l' | l in s'.locks && l' in s'.locks && l.row == l'.row && l.holder != l'.holder ensures !Conflict(l.mode, l'.mode) {
      if l !in s.locks { assert l' in s.locks; } else if l' !in s.locks { assert l in s.locks; }
    }
  }

  lemma LocksStep(policy: Policy, s: State, e: Event)
    requires LocksOk(s)
    ensures LocksOk(Step(policy, s, e))
  {
    match e
    case LockNext(t, id) =>
      if t in s.open && s.open[t].phase.Locking? && MayLock(s, t, id, ModeOf(s.open[t].phase.q)) && Step(policy, s, e).locks != s.locks {
        LockAdded(s, t, id, ModeOf(s.open[t].phase.q), Step(policy, s, e));
      }
    case TakeLock(t, id, mode) =>
      if t in s.open && MayLock(s, t, id, mode) && Step(policy, s, e).locks != s.locks { LockAdded(s, t, id, mode, Step(policy, s, e)); }
    case _ =>
  }

  /** A transaction keeps its locks to its end. */
  lemma LocksLast(policy: Policy, s: State, e: Event, l: Lock)
    requires l in s.locks && l.holder in Step(policy, s, e).open && l.holder in s.open
    ensures l in Step(policy, s, e).locks
  {
  }

  lemma OnlyCommitsChange(policy: Policy, s: State, e: Event)
    requires !(e.Commit? && MayWrite(s, e.t))
    ensures Step(policy, s, e).db == s.db
  {
  }

  // ----- writes -----

  ghost predicate WriteOk(s: State, t: Txn, id: Id)
    requires t in s.open && id in s.open[t].writes
  {
    var w := s.open[t].writes[id];
    && (id in s.db ==> HoldsForWrite(s.locks, t, id))
    && (w.Some? ==> ParentHeld(s, t, id, w.value))
    && (w.Some? && id in s.db ==> SameTable(s.db[id], w.value))
  }

  ghost predicate AllWrites(s: State) {
    forall t, id :: t in s.open && id in s.open[t].writes ==> WriteOk(s, t, id)
  }

  /** No two open transactions write the same row. */
  ghost predicate Apart(s: State) {
    forall t, t', id :: t in s.open && t' in s.open && t != t' && id in s.open[t].writes ==> id !in s.open[t'].writes
  }

  /** A row that anyone holds against writers is not written by another. */
  lemma WriterConflicts(s: State, t: Txn, id: Id, l: Lock)
    requires LocksOk(s) && AllWrites(s) && t in s.open && id in s.open[t].writes && id in s.db
    requires l in s.locks && l.row == id && (l.mode == Share || l.mode == NoKeyUpdate || l.mode == Update)
    ensures l.holder == t
  {
    assert WriteOk(s, t, id);
    var m := if Lock(id, t, Update) in s.locks then Update else NoKeyUpdate;
    assert Lock(id, t, m) in s.locks && Conflict(m, l.mode);
  }

  lemma OneWriter(s: State, t: Txn, t': Txn, id: Id)
    requires LocksOk(s) && AllWrites(s) && t in s.open && t' in s.open && id in s.db
    requires HoldsForWrite(s.locks, t, id) && id in s.open[t'].writes
    ensures t == t'
  {
    var m := if Lock(id, t, Update) in s.locks then Update else NoKeyUpdate;
    WriterConflicts(s, t', id, Lock(id, t, m));
  }

  lemma ApartStep(policy: Policy, s: State, e: Event)
    requires LocksOk(s) && AllWrites(s) && Apart(s)
    ensures Apart(Step(policy, s, e))
  {
    var s' := Step(policy, s, e);
    forall t, t', id | t in s'.open && t' in s'.open && t != t' && id in s'.open[t].writes ensures id !in s'.open[t'].writes {
      WritesGrow(policy, s, e, t, id);
      if id in s'.open[t'].writes { WritesGrow(policy, s, e, t', id); }
    }
  }

  /** A pending write was pending before, or this step made it: to a row held for writing, or to a new one. */
  lemma WritesGrow(policy: Policy, s: State, e: Event, t: Txn, id: Id)
    requires LocksOk(s) && AllWrites(s)
    requires var s' := Step(policy, s, e); t in s'.open && id in s'.open[t].writes
    ensures t in s.open
    ensures id in s.open[t].writes
         || (Doer(e) == Some(t) && forall t' :: t' in s.open && t' != t ==> id !in s.open[t'].writes)
  {
    if Doer(e) != Some(t) {
      OthersStay(policy, s, e, t);
    } else if t in s.open && id !in s.open[t].writes && e.Change? && MayChange(s, t, e.id, e.row) {
      forall t' | t' in s.open && t' != t ensures id !in s.open[t'].writes {
        if id in s.open[t'].writes { OneWriter(s, t, t', id); }
      }
    }
  }

  /** What stays true of a pending write when the rest of the state moves on. */
  lemma WriteStays(s: State, s': State, t: Txn, id: Id)
    requires t in s.open && id in s.open[t].writes && WriteOk(s, t, id)
    requires t in s'.open && id in s'.open[t].writes && s'.open[t].writes[id] == s.open[t].writes[id]
    requires id in s'.db <==> id in s.db
    requires id in s.db ==> s'.db[id] == s.db[id]
    requires forall l :: l in s.locks && l.holder == t ==> l in s'.locks
    ensures WriteOk(s', t, id)
  {
    var w := s.open[t].writes[id];
    if w.Some? && Parent(w.value).Some? && Holds(s.locks, t, Parent(w.value).value) {
      var mode :| Lock(Parent(w.value).value, t, mode) in s.locks;
      assert Lock(Parent(w.value).value, t, mode) in s'.locks;
    }
  }

  /** A commit leaves the rows alone that another transaction is about to write. */
  lemma CommitApart(s: State, t: Txn, t': Txn, id: Id)
    requires LocksOk(s) && AllWrites(s) && Apart(s) && t in s.open && t' in s.open && t != t' && id in s.open[t'].writes
    ensures var db := Overlay(s.db, s.open[t].writes); (id in db <==> id in s.db) && (id in s.db ==> db[id] == s.db[id])
  {
    assert id !in s.open[t].writes;
  }

  lemma WritesStep(policy: Policy, s: State, e: Event)
    requires LocksOk(s) && AllWrites(s) && Apart(s)
    ensures AllWrites(Step(policy, s, e))
  {
    var s' := Step(policy, s, e);
    forall t, id | t in s'.open && id in s'.open[t].writes ensures WriteOk(s', t, id) {
      WritesGrow(policy, s, e, t, id);
      forall l | l in s.locks && l.holder == t ensures l in s'.locks { LocksLast(policy, s, e, l); }
      if Doer(e) != Some(t) {
        OthersStay(policy, s, e, t);
        if e.Commit? && MayWrite(s, e.t) { CommitApart(s, e.t, t, id); } else { OnlyCommitsChange(policy, s, e); }
        WriteStays(s, s', t, id);
      } else {
        DoerWrites(policy, s, e, id);
      }
    }
  }

  lemma DoerWrites(policy: Policy, s: State, e: Event, id: Id)
    requires LocksOk(s) && AllWrites(s) && !e.Elapse?
    requires var s' := Step(policy, s, e); e.t in s'.open && id in s'.open[e.t].writes && e.t in s.open
    ensures WriteOk(Step(policy, s, e), e.t, id)
  {
    var s' := Step(policy, s, e);
    OnlyCommitsChange(policy, s, e);
    if (e.Change? && MayChange(s, e.t, e.id, e.row) && e.id == id) || (e.Insert? && e.id == id && s'.open != s.open) {
      assert s'.locks == s.locks;
    } else {
      forall l | l in s.locks && l.holder == e.t ensures l in s'.locks { LocksLast(policy, s, e, l); }
      assert id in s.open[e.t].writes && WriteOk(s, e.t, id);
      WriteStays(s, s', e.t, id);
    }
  }

  // ----- rows read -----

  /** Every row the transaction's locking reads returned is still there, unchanged, under its lock. */
  ghost predicate Guarded(s: State, t: Txn)
    requires t in s.open
  {
    forall q, id :: ReadsRow(s.open[t], q, id) ==>
      id in s.db && s.db[id] == s.open[t].read[q][id] && Lock(id, t, ModeOf(q)) in s.locks
  }

  ghost predicate AllGuarded(s: State) { forall t :: t in s.open ==> Guarded(s, t) }

  /** A commit leaves the rows alone that another transaction has read. */
  lemma CommitSpares(s: State, t: Txn, l: Lock)
    requires LocksOk(s) && AllWrites(s) && t in s.open && l in s.locks && l.holder != t && l.row in s.db
    requires l.mode == Share || l.mode == Update
    ensures l.row in Overlay(s.db, s.open[t].writes) && Overlay(s.db, s.open[t].writes)[l.row] == s.db[l.row]
  {
    if l.row in s.open[t].writes { WriterConflicts(s, t, l.row, l); }
  }

  /** Transaction numbers are never used again. */
  predicate Known(s: State) { s.open.Keys <= s.used }

  lemma KnownStep(policy: Policy, s: State, e: Event)
    requires Known(s)
    ensures Known(Step(policy, s, e)) && s.used <= Step(policy, s, e).used
  {
  }

  /** Only two kinds of step change what a transaction has read. */
  lemma ReadsStay(policy: Policy, s: State, e: Event, t: Txn)
    requires Known(s) && t in s.open && t in Step(policy, s, e).open && !(e == Ask(t)) && !(e.LockNext? && e.t == t)
    ensures var x, y := s.open[t], Step(policy, s, e).open[t];
            y.read == x.read && y.children == x.children && y.command == x.command
  {
  }

  lemma NothingReadYet(policy: Policy, s: State, e: Event, t: Txn)
    requires t !in s.open && t in Step(policy, s, e).open
    ensures Step(policy, s, e).open[t].read == map[]
  {
  }

  lemma AskReads(policy: Policy, s: State, t: Txn, q: Query, id: Id)
    requires t in s.open && ReadsRow(Step(policy, s, Ask(t)).open[t], q, id)
    ensures ReadsRow(s.open[t], q, id) && Step(policy, s, Ask(t)).open[t].read[q][id] == s.open[t].read[q][id]
  {
  }

  lemma LockReads(policy: Policy, s: State, t: Txn, i: Id, q: Query, id: Id)
    requires t in s.open && t in Step(policy, s, LockNext(t, i)).open && ReadsRow(Step(policy, s, LockNext(t, i)).open[t], q, id)
    ensures var s' := Step(policy, s, LockNext(t, i));
            || (ReadsRow(s.open[t], q, id) && s'.open[t].read[q][id] == s.open[t].read[q][id])
            || (i == id && id in s.db && s'.open[t].read[q][id] == s.db[id] && Lock(id, t, ModeOf(q)) in s'.locks)
  {
  }

  /** The rows a transaction has read, this step included: it read them before, or reads one now. */
  lemma ReadsGrow(policy: Policy, s: State, e: Event, t: Txn, q: Query, id: Id)
    requires Known(s) && t in Step(policy, s, e).open && ReadsRow(Step(policy, s, e).open[t], q, id)
    ensures t in s.open
    ensures var s' := Step(policy, s, e);
            || (ReadsRow(s.open[t], q, id) && s'.open[t].read[q][id] == s.open[t].read[q][id])
            || (e == LockNext(t, id) && id in s.db && s'.open[t].read[q][id] == s.db[id] && Lock(id, t, ModeOf(q)) in s'.locks)
  {
    if t !in s.open { NothingReadYet(policy, s, e, t); }
    else if e == Ask(t) { AskReads(policy, s, t, q, id); }
    else if e.LockNext? && e.t == t { LockReads(policy, s, t, e.id, q, id); }
    else { ReadsStay(policy, s, e, t); }
  }

  lemma GuardedStep(policy: Policy, s: State, e: Event)
    requires Known(s) && LocksOk(s) && AllWrites(s) && AllGuarded(s)
    ensures AllGuarded(Step(policy, s, e))
  {
    var s' := Step(policy, s, e);
    forall t, q, id | t in s'.open && ReadsRow(s'.open[t], q, id)
      ensures id in s'.db && s'.db[id] == s'.open[t].read[q][id] && Lock(id, t, ModeOf(q)) in s'.locks
    {
      ReadsGrow(policy, s, e, t, q, id);
      assert Guarded(s, t);
      if e != LockNext(t, id) || ReadsRow(s.open[t], q, id) {
        LocksLast(policy, s, e, Lock(id, t, ModeOf(q)));
        if e.Commit? && MayWrite(s, e.t) { CommitSpares(s, e.t, Lock(id, t, ModeOf(q))); } else { OnlyCommitsChange(policy, s, e); }
      } else {
        OnlyCommitsChange(policy, s, e);
      }
    }
  }

  // ----- the organization's rows -----

  lemma SomeRow(rows: Rows)
    ensures rows == map[] || exists id :: id in rows
  {
    if rows.Keys == {} { assert rows == map[]; }
  }

  /** Inside the organization, its row is held for update. */
  lemma InsideHolds(policy: Policy, s: State, t: Txn)
    requires AllSound(policy, s) && AllGuarded(s) && t in s.open && Inside(s.open[t])
    ensures var organization := s.open[t].command.value.organization;
            organization in s.db && Lock(organization, t, Update) in s.locks
  {
    var x := s.open[t];
    assert Sound(policy, x) && Guarded(s, t);
    SomeRow(RowsOf(x, Org));
    var id :| id in RowsOf(x, Org);
    assert ReadsRow(x, Org, id);
  }

  /** The organization gained no rows since its lock was taken. */
  ghost predicate NoNewRows(s: State, t: Txn)
    requires t in s.open
  {
    Inside(s.open[t]) ==> OrgRows(s.db, s.open[t].command.value.organization) <= s.open[t].children
  }

  ghost predicate AllNoNewRows(s: State) { forall t :: t in s.open ==> NoNewRows(s, t) }

  lemma HoldersAgree(s: State, t: Txn, t': Txn, id: Id)
    requires LocksOk(s) && Lock(id, t', Update) in s.locks && Holds(s.locks, t, id)
    ensures t == t'
  {
    var mode :| Lock(id, t, mode) in s.locks;
    assert Conflict(mode, Update);
  }

  /** A row that another transaction commits into the organization was in it before. */
  lemma CommitAddsNone(policy: Policy, s: State, t: Txn, t': Txn, id: Id, row: Row)
    requires LocksOk(s) && AllSound(policy, s) && AllGuarded(s) && AllWrites(s)
    requires t in s.open && t' in s.open && t != t' && Inside(s.open[t'])
    requires AfterWrite(s.db, s.open[t].writes, id) == Some(row) && Parent(row) == Some(s.open[t'].command.value.organization)
    ensures id in s.db && Parent(s.db[id]) == Parent(row)
  {
    if id in s.open[t].writes {
      assert WriteOk(s, t, id);
      InsideHolds(policy, s, t');
      if Holds(s.locks, t, Parent(row).value) { HoldersAgree(s, t, t', Parent(row).value); }
    }
  }

  lemma NoNewRowsStep(policy: Policy, s: State, e: Event)
    requires Known(s) && LocksOk(s) && AllSound(policy, s) && AllGuarded(s) && AllWrites(s) && AllNoNewRows(s)
    ensures AllNoNewRows(Step(policy, s, e))
  {
    var s' := Step(policy, s, e);
    forall t | t in s'.open && Inside(s'.open[t]) ensures NoNewRows(s', t) {
      if Doer(e) != Some(t) {
        OthersStay(policy, s, e, t);
        assert NoNewRows(s, t);
        if e.Commit? && MayWrite(s, e.t) {
          forall id | id in OrgRows(s'.db, s.open[t].command.value.organization)
            ensures id in OrgRows(s.db, s.open[t].command.value.organization)
          {
            CommitAddsNone(policy, s, e.t, t, id, s'.db[id]);
          }
        } else {
          OnlyCommitsChange(policy, s, e);
        }
      } else {
        DoerNoNewRows(policy, s, e);
      }
    }
  }

  lemma DoerNoNewRows(policy: Policy, s: State, e: Event)
    requires Known(s) && AllNoNewRows(s) && !e.Elapse? && e.t in Step(policy, s, e).open
    ensures NoNewRows(Step(policy, s, e), e.t)
  {
    OnlyCommitsChange(policy, s, e);
    if e.t !in s.open { NothingReadYet(policy, s, e, e.t); }
    else {
      assert NoNewRows(s, e.t);
      if e.LockNext? { LockNoNewRows(policy, s, e.t, e.id); }
      else if !e.Ask? { ReadsStay(policy, s, e, e.t); }
    }
  }

  lemma LockNoNewRows(policy: Policy, s: State, t: Txn, id: Id)
    requires t in s.open && NoNewRows(s, t) && t in Step(policy, s, LockNext(t, id)).open
    ensures NoNewRows(Step(policy, s, LockNext(t, id)), t)
  {
  }

  // ----- role and base entitlements -----

  /** The two queries whose matches do not depend on a status. */
  predicate Standing(q: Query) { q == RoleDef || q == Base }

  predicate Pending(x: Open, q: Query, id: Id) { x.phase.Locking? && x.phase.q == q && id in x.phase.todo }

  predicate Seen(x: Open, q: Query, id: Id) { ReadsRow(x, q, id) || Pending(x, q, id) }

  ghost predicate MovedIn(moves: set<Move>, c: Command, id: Id) { exists m :: m in moves && m.id == id && BaseScope(c, m.to) }

  /** Since the command's latest snapshot somebody committed this entitlement into its base scope. */
  ghost predicate Arrived(s: State, x: Open, c: Command, id: Id) {
    exists k :: x.since <= k < |s.moves| && MovedIn(s.moves[k], c, id)
  }

  /** Every row the query would find is among those read, or arrived in the base scope after its snapshot. */
  ghost predicate Complete(s: State, t: Txn, q: Query)
    requires t in s.open
  {
    var x := s.open[t];
    x.command.Some? && x.phase != Denied && q in x.read ==>
      forall id :: id in s.db && Matches(x.command.value, x.member, q, id, s.db[id]) ==>
        Seen(x, q, id) || (q == Base && Arrived(s, x, x.command.value, id))
  }

  ghost predicate AllComplete(s: State) { forall t, q :: t in s.open && Standing(q) ==> Complete(s, t, q) }

  /** A row another transaction commits under the query was under it before, or is moved into the base scope. */
  lemma CommitKeepsMatches(policy: Policy, s: State, t: Txn, t': Txn, q: Query, id: Id, row: Row)
    requires LocksOk(s) && AllSound(policy, s) && AllGuarded(s) && AllWrites(s)
    requires t in s.open && t' in s.open && t != t' && Inside(s.open[t']) && Standing(q)
    requires AfterWrite(s.db, s.open[t].writes, id) == Some(row)
    requires Matches(s.open[t'].command.value, s.open[t'].member, q, id, row)
    ensures id in s.db
    ensures Matches(s.open[t'].command.value, s.open[t'].member, q, id, s.db[id])
         || (q == Base && MovedIn(MovesOf(s.db, s.open[t].writes), s.open[t'].command.value, id))
  {
    CommitAddsNone(policy, s, t, t', id, row);
    if id in s.open[t].writes {
      assert WriteOk(s, t, id);
      if q == Base && ScopeOf(s.db[id]) != ScopeOf(row) {
        assert Move(id, row.scope) in MovesOf(s.db, s.open[t].writes);
      }
    }
  }

  lemma StandingIsInside(policy: Policy, x: Open, q: Query)
    requires Sound(policy, x) && x.command.Some? && x.phase != Denied && q in x.read && Standing(q)
    ensures Inside(x)
  {
    assert PhaseRank(x.phase) >= 4;
    assert Org in x.read && Passes(policy, x.command.value, x, Org);
  }

  lemma CompleteStep(policy: Policy, s: State, e: Event)
    requires Known(s) && LocksOk(s) && AllSound(policy, s) && AllGuarded(s) && AllWrites(s) && SnapshotsPast(s) && AllComplete(s)
    ensures AllComplete(Step(policy, s, e))
  {
    var s' := Step(policy, s, e);
    forall t, q | t in s'.open && Standing(q) ensures Complete(s', t, q) {
      if Doer(e) != Some(t) {
        OthersStay(policy, s, e, t);
        assert Complete(s, t, q);
        OthersComplete(policy, s, e, t, q);
      } else {
        DoerComplete(policy, s, e, q);
      }
    }
  }

  lemma MovesGrow(policy: Policy, s: State, e: Event)
    ensures s.moves <= Step(policy, s, e).moves
  {
  }

  lemma ArrivedStays(s: State, s': State, x: Open, c: Command, id: Id)
    requires s.moves <= s'.moves && Arrived(s, x, c, id)
    ensures Arrived(s', x, c, id)
  {
    var k :| x.since <= k < |s.moves| && MovedIn(s.moves[k], c, id);
    assert s'.moves[k] == s.moves[k];
  }

  lemma OthersComplete(policy: Policy, s: State, e: Event, t: Txn, q: Query)
    requires LocksOk(s) && AllSound(policy, s) && AllGuarded(s) && AllWrites(s) && SnapshotsPast(s) && Standing(q)
    requires t in s.open && Complete(s, t, q) && Doer(e) != Some(t) && t in Step(policy, s, e).open && Step(policy, s, e).open[t] == s.open[t]
    ensures Complete(Step(policy, s, e), t, q)
  {
    var x, s' := s.open[t], Step(policy, s, e);
    assert Sound(policy, x);
    MovesGrow(policy, s, e);
    if x.command.Some? && x.phase != Denied && q in x.read {
      StandingIsInside(policy, x, q);
      forall id | id in s'.db && Matches(x.command.value, x.member, q, id, s'.db[id])
        ensures Seen(x, q, id) || (q == Base && Arrived(s', x, x.command.value, id))
      {
        if e.Commit? && MayWrite(s, e.t) { CommitComplete(policy, s, s', e.t, t, q, id); }
        else {
          OnlyCommitsChange(policy, s, e);
          if !Seen(x, q, id) { ArrivedStays(s, s', x, x.command.value, id); }
        }
      }
    }
  }

  lemma CommitComplete(policy: Policy, s: State, s': State, t: Txn, t': Txn, q: Query, id: Id)
    requires LocksOk(s) && AllSound(policy, s) && AllGuarded(s) && AllWrites(s) && Standing(q)
    requires t in s.open && t' in s.open && t != t' && Inside(s.open[t']) && Complete(s, t', q)
    requires s.open[t'].phase != Denied && q in s.open[t'].read
    requires s'.moves == s.moves + [MovesOf(s.db, s.open[t].writes)] && s'.db == Overlay(s.db, s.open[t].writes)
    requires id in s'.db && Matches(s.open[t'].command.value, s.open[t'].member, q, id, s'.db[id])
    requires s.open[t'].since <= |s.moves|
    ensures Seen(s.open[t'], q, id) || (q == Base && Arrived(s', s.open[t'], s.open[t'].command.value, id))
  {
    var x := s.open[t'];
    CommitKeepsMatches(policy, s, t, t', q, id, s'.db[id]);
    if Matches(x.command.value, x.member, q, id, s.db[id]) {
      if !Seen(x, q, id) { ArrivedStays(s, s', x, x.command.value, id); }
    } else {
      assert s'.moves[|s.moves|] == MovesOf(s.db, s.open[t].writes);
    }
  }

  lemma DoerComplete(policy: Policy, s: State, e: Event, q: Query)
    requires Known(s) && AllSound(policy, s) && AllComplete(s) && !e.Elapse? && e.t in Step(policy, s, e).open && Standing(q)
    ensures Complete(Step(policy, s, e), e.t, q)
  {
    if e.t !in s.open { NothingReadYet(policy, s, e, e.t); }
    else {
      assert Sound(policy, s.open[e.t]) && Complete(s, e.t, q);
      if e.LockNext? {
        if s.open[e.t].command.Some? && s.open[e.t].phase.Locking? { LockRowComplete(policy, s, e.t, e.id, q); }
      } else if e.Ask? {
        AskComplete(policy, s, e.t, q);
      } else {
        RestComplete(policy, s, e, q);
      }
    }
  }

  lemma AskComplete(policy: Policy, s: State, t: Txn, q: Query)
    requires t in s.open && Sound(policy, s.open[t]) && Complete(s, t, q) && Standing(q)
    ensures Complete(Step(policy, s, Ask(t)), t, q)
  {
    var x, y := s.open[t], Step(policy, s, Ask(t)).open[t];
    if x.command.Some? && x.phase.Asking? && x.phase.q != q && q in x.read {
      assert Rank(q) < PhaseRank(x.phase);
      assert forall id :: Seen(x, q, id) ==> Seen(y, q, id);
    }
  }

  lemma RestComplete(policy: Policy, s: State, e: Event, q: Query)
    requires Known(s) && !e.Elapse? && !e.Ask? && !e.LockNext? && e.t in s.open && e.t in Step(policy, s, e).open
    requires Sound(policy, s.open[e.t]) && Complete(s, e.t, q) && Standing(q)
    ensures Complete(Step(policy, s, e), e.t, q)
  {
    var x, s' := s.open[e.t], Step(policy, s, e);
    var y := s'.open[e.t];
    OnlyCommitsChange(policy, s, e);
    ReadsStay(policy, s, e, e.t);
    StepMoves(policy, s, e);
    PhaseAfter(policy, s, e);
    if x.phase != Denied && q in x.read { MemberAfter(policy, s, e, q); }
    assert forall id :: Seen(x, q, id) && y.phase != Denied ==> Seen(y, q, id);
  }

  /** Between queries a phase that is not a denial comes from one that was not, with nothing left to lock. */
  lemma PhaseAfter(policy: Policy, s: State, e: Event)
    requires Known(s) && !e.Elapse? && !e.Ask? && !e.LockNext? && e.t in s.open && e.t in Step(policy, s, e).open
    ensures var x, y := s.open[e.t], Step(policy, s, e).open[e.t];
            && (y.phase != Denied ==> x.phase != Denied)
            && (y.phase == x.phase || !x.phase.Locking? || x.phase.todo == {})
  {
  }

  lemma MemberAfter(policy: Policy, s: State, e: Event, q: Query)
    requires Known(s) && !e.Elapse? && !e.Ask? && !e.LockNext? && e.t in s.open && e.t in Step(policy, s, e).open
    requires Sound(policy, s.open[e.t]) && Standing(q) && s.open[e.t].phase != Denied && q in s.open[e.t].read
    ensures Step(policy, s, e).open[e.t].member == s.open[e.t].member
  {
    assert PhaseRank(s.open[e.t].phase) >= Rank(q);
  }

  lemma StepMoves(policy: Policy, s: State, e: Event)
    requires Known(s) && !e.Elapse? && !e.Ask? && e.t in s.open && e.t in Step(policy, s, e).open
    ensures Step(policy, s, e).moves == s.moves && Step(policy, s, e).open[e.t].since == s.open[e.t].since
  {
  }

  lemma LockRowComplete(policy: Policy, s: State, t: Txn, id: Id, q: Query)
    requires t in s.open && Sound(policy, s.open[t]) && Complete(s, t, q) && s.open[t].command.Some? && s.open[t].phase.Locking?
    ensures var x := s.open[t];
            Complete(LockRow(s, t, x, x.command.value, x.phase.q, x.phase.todo, id), t, q)
  {
    var x := s.open[t];
    var s' := LockRow(s, t, x, x.command.value, x.phase.q, x.phase.todo, id);
    var y := s'.open[t];
    if q in y.read {
      assert q in x.read;
      forall i | i in s.db && Matches(x.command.value, x.member, q, i, s.db[i])
        ensures Seen(y, q, i) || (q == Base && Arrived(s', y, x.command.value, i))
      {
        if Seen(x, q, i) { SeenStays(s, t, id, q, i); } else { ArrivedStays(s, s', x, x.command.value, i); }
      }
    }
  }

  lemma SeenStays(s: State, t: Txn, id: Id, q: Query, i: Id)
    requires t in s.open && s.open[t].command.Some? && s.open[t].phase.Locking? && Seen(s.open[t], q, i)
    requires i in s.db && Matches(s.open[t].command.value, s.open[t].member, q, i, s.db[i])
    ensures var x := s.open[t];
            Seen(LockRow(s, t, x, x.command.value, x.phase.q, x.phase.todo, id).open[t], q, i)
  {
  }

  // ----- snapshots -----

  ghost predicate SnapshotsPast(s: State) { forall t :: t in s.open ==> s.open[t].since <= |s.moves| }

  lemma SnapshotsStep(policy: Policy, s: State, e: Event)
    requires SnapshotsPast(s)
    ensures SnapshotsPast(Step(policy, s, e))
  {
    MovesGrow(policy, s, e);
    forall t | t in Step(policy, s, e).open ensures Step(policy, s, e).open[t].since <= |Step(policy, s, e).moves| {
      if Doer(e) != Some(t) { OthersStay(policy, s, e, t); }
    }
  }
}
