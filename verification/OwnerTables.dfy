/** How much of the tables a granted command has seen when it commits: its role is the tables' own, its assignments and
grants are among theirs, so a policy that only grows with assignments and grants grants on the full tables. */
module OwnerTables {
  import opened Options
  import opened OwnerTransactions
  import opened OwnerAuthority
  import opened OwnerIsolation
  import opened OwnerCommits
  import opened OwnerAlone
  import opened OwnerColumns

  /** More assignments and more grants never take a property or a permission away. */
  ghost predicate Grows(policy: Policy) { PropertiesGrow(policy) && PermissionsGrow(policy) }

  ghost predicate PropertiesGrow(policy: Policy) {
    forall m, a, a', r :: Part(a, a') ==> policy.properties(m, a, r) <= policy.properties(m, a', r)
  }

  ghost predicate PermissionsGrow(policy: Policy) {
    forall m, a, a', r, g, g' :: Part(a, a') && Part(g, g') && policy.permissions(m, a, r, g).Some? ==>
      policy.permissions(m, a', r, g').Some? && policy.permissions(m, a, r, g).value <= policy.permissions(m, a', r, g').value
  }

  /** Rows a query returned are rows it would find now. */
  lemma ReadIsFound(policy: Policy, s: State, t: Txn, q: Query)
    requires t in s.open && Guarded(s, t) && Sound(policy, s.open[t]) && s.open[t].command.Some? && q != Links
    ensures Part(RowsOf(s.open[t], q), Finds(s.db, s.open[t].command.value, s.open[t].member, q))
  {
    var x := s.open[t];
    FindsMatching(s.db, x.command.value, x.member, q);
    forall id | id in RowsOf(x, q) ensures id in Finds(s.db, x.command.value, x.member, q) && RowsOf(x, q)[id] == Finds(s.db, x.command.value, x.member, q)[id] {
      assert ReadsRow(x, q, id);
    }
  }

  /** The role row a working command read is the tables' own: nobody can add a role to the organization it holds, and
  the row itself is held. */
  lemma RoleIsTheTables(policy: Policy, s: State, t: Txn)
    requires Isolated(policy, s) && MayWrite(s, t) && s.open[t].command.Some?
    ensures s.open[t].member.Some?
    ensures RowsOf(s.open[t], RoleDef) == RoleRows(s.open[t].command.value, s.db, s.open[t].member.value)
  {
    var x := s.open[t];
    var c := x.command.value;
    assert Guarded(s, t) && Sound(policy, x) && Complete(s, t, RoleDef);
    assert RoleDef in x.read;
    ReadIsFound(policy, s, t, RoleDef);
    FindsMatching(s.db, c, x.member, RoleDef);
    forall id | id in Finds(s.db, c, x.member, RoleDef) ensures id in RowsOf(x, RoleDef) {
      assert Matches(c, x.member, RoleDef, id, s.db[id]);
      assert Seen(x, RoleDef, id);
    }
    SameRows(RowsOf(x, RoleDef), Finds(s.db, c, x.member, RoleDef));
    FindsPolicyRows(c, s.db, x.member.value);
  }

  lemma SameRows(rows: Rows, all: Rows)
    requires Part(rows, all) && forall id :: id in all ==> id in rows
    ensures rows == all
  {
  }

  /** In every interleaving, when a command may commit: its authority stands on the membership's own role row in the
  tables, and on assignments and grants that are all in them. */
  lemma AuthorityOnTables(policy: Policy, db: Rows, events: seq<Event>, t: Txn)
    requires var s := Reached(policy, db, events); MayWrite(s, t) && s.open[t].command.Some?
    ensures var s := Reached(policy, db, events);
            var x := s.open[t];
            && x.member.Some?
            && var c, m := x.command.value, x.member;
               Stands(policy, c, s.db, m.value, RowsOf(x, Assigned), RoleRows(c, s.db, m.value), RowsOf(x, Grants))
  {
    var s := Reached(policy, db, events);
    AlwaysIsolated(policy, db, events);
    assert Guarded(s, t) && Sound(policy, s.open[t]);
    AuthorityStands(policy, s, t);
    RoleIsTheTables(policy, s, t);
  }

  lemma MoreStands(policy: Policy, c: Command, db: Rows, m: Found, a: Rows, role: Rows, g: Rows)
    requires Grows(policy) && Stands(policy, c, db, m, a, role, g)
    ensures Stands(policy, c, db, m, AssignmentRows(c, db, m), role, GrantRows(db, m))
  {
    var a', g' := AssignmentRows(c, db, m), GrantRows(db, m);
    assert policy.properties(m, a, role) <= policy.properties(m, a', role);
    var p, p' := policy.permissions(m, a, role, g), policy.permissions(m, a', role, g');
    assert p'.Some? && p.value <= p'.value;
  }

  /** For a policy that only grows with assignments and grants, the authority worked out on the full tables of the
  instant the command may commit stands. */
  lemma FullTablesStand(policy: Policy, db: Rows, events: seq<Event>, t: Txn)
    requires Grows(policy)
    requires var s := Reached(policy, db, events); MayWrite(s, t) && s.open[t].command.Some?
    ensures var s := Reached(policy, db, events);
            s.open[t].member.Some? && StandsFor(policy, s.open[t].command.value, s.db, s.open[t].member.value)
  {
    var s := Reached(policy, db, events);
    var x := s.open[t];
    AuthorityOnTables(policy, db, events, t);
    var c, m := x.command.value, x.member.value;
    MoreStands(policy, c, s.db, m, RowsOf(x, Assigned), RoleRows(c, s.db, m), RowsOf(x, Grants));
  }
}
