/** Switching Financials on and off (apps/api/src/hotelSetupFeatureHubOrdinary.ts). The switch-off is marked
with its transaction's number, and the mark counts only while that number is still the row's last writer. */
module FinancialsMarker {
  import opened Options
  import opened Runs

  datatype Status = Active | Suspended | Expired

  /** The module:financials entitlement: its status, whether the new-hotel default is complete, the owner-off
      mark (None when absent or `false`), and the number of the transaction that wrote it last (`xmin`). */
  datatype Row = Row(status: Status, ready: bool, mark: Option<nat>, writer: nat)

  predicate OwnerOff(r: Row) { r.mark == Some(r.writer) }

  /** An owner's command, with what its other checks answer: authority, the entitlement's dates, and the
      activation prerequisites (currency, base access, no other suspension). */
  datatype Command = Command(isActive: bool, authorized: bool, window: bool, prerequisites: bool)

  datatype Outcome = Denied | Unavailable | Done(isActive: bool)
  datatype Audit = Audit(transaction: nat, isActive: bool)

  function Answer(row: Option<Row>, c: Command): Outcome {
    if !c.authorized then Denied
    else if row.None? || !row.value.ready then Unavailable
    else if c.isActive && (!c.window
                           || (row.value.status != Active && (row.value.status != Suspended || !OwnerOff(row.value)))
                           || !c.prerequisites) then Unavailable
    else Done(c.isActive)
  }

  /** The row an owner's successful command leaves. */
  function Written(r: Row, isActive: bool, transaction: nat): Row {
    var ownerOff := !isActive && (r.status == Active || OwnerOff(r));
    r.(status := if isActive then Active else Suspended,
       mark := if ownerOff then Some(transaction) else None,
       writer := transaction)
  }

  /** The table as one property sees it. */
  class Entitlement {
    var row: Option<Row>
    var audits: seq<Audit>

    constructor (stored: Option<Row>)
      ensures row == stored && audits == []
    {
      row, audits := stored, [];
    }

    /** `updateFinancials` inside its transaction, all locks held. */
    method UpdateFinancials(c: Command, transaction: nat) returns (outcome: Outcome)
      modifies this
      ensures outcome == Denied <==> !c.authorized
      ensures outcome.Done? <==>
                && c.authorized && old(row).Some? && old(row).value.ready
                && (c.isActive ==>
                     && c.window && c.prerequisites
                     && (old(row).value.status == Active
                         || (old(row).value.status == Suspended && old(row).value.mark == Some(old(row).value.writer))))
      ensures outcome.Done? ==> outcome.isActive == c.isActive && row.Some?
      ensures outcome.Done? ==> row.value.status == (if c.isActive then Active else Suspended)
      ensures outcome.Done? ==> row.value.ready == old(row).value.ready && row.value.writer == transaction
      ensures outcome.Done? ==>
                (row.value.mark == Some(transaction) <==>
                  !c.isActive && (old(row).value.status == Active || old(row).value.mark == Some(old(row).value.writer)))
      ensures outcome.Done? ==> row.value.mark.None? || row.value.mark == Some(transaction)
      ensures outcome == Answer(old(row), c)
      ensures outcome.Done? ==> row == Some(Written(old(row).value, c.isActive, transaction))
      ensures outcome.Done? ==> audits == old(audits) + [Audit(transaction, c.isActive)]
      ensures !outcome.Done? ==> row == old(row) && audits == old(audits)
    {
      if !c.authorized { return Denied; }
      if row.None? { return Unavailable; }
      var entitlement := row.value;
      if !entitlement.ready { return Unavailable; }
      var wasOwnerOff := OwnerOff(entitlement);
      if c.isActive {
        if !c.window
           || (entitlement.status != Active && (entitlement.status != Suspended || !wasOwnerOff))
           || !c.prerequisites {
          return Unavailable;
        }
      }
      var ownerOff := !c.isActive && (entitlement.status == Active || wasOwnerOff);
      row := Some(entitlement.(status := if c.isActive then Active else Suspended,
                               mark := if ownerOff then Some(transaction) else None,
                               writer := transaction));
      audits := audits + [Audit(transaction, c.isActive)];
      outcome := Done(c.isActive);
    }
  }

  // ----- histories -----

  /** Anyone else's write replaces the row's facts; it leaves the mark as it is or clears it. */
  datatype Event =
    | Owner(command: Command)
    | Other(status: Status, ready: bool, clearsMark: bool)
    | Remove

  /** The row and the next transaction number; numbers only grow. */
  datatype Table = Table(row: Option<Row>, next: nat)

  function Step(t: Table, e: Event): Table {
    match e
    case Owner(c) =>
      if Answer(t.row, c).Done? then Table(Some(Written(t.row.value, c.isActive, t.next)), t.next + 1)
      else Table(t.row, t.next + 1)
    case Other(status, ready, clears) =>
      Table(Some(Row(status, ready, if clears || t.row.None? then None else t.row.value.mark, t.next)), t.next + 1)
    case Remove => Table(None, t.next + 1)
  }

  /** The row is suspended. */
  predicate IsSuspended(t: Table) { t.row.Some? && t.row.value.status == Suspended }

  /** An owner's command other than one that switches Financials back on. */
  function KeepsOff(): (Table, Event) -> bool { (t: Table, e: Event) => e.Owner? && Answer(t.row, e.command) != Done(true) }

  /** What an owner's successful command leaves, to the next event and to all later ones: a switch-on leaves the row
  active; a switch-off leaves it suspended, through any owner commands, until one of them switches it back on. */
  lemma OwnerCommandHolds(t: Table, c: Command, later: seq<Event>)
    requires Answer(t.row, c).Done?
    ensures c.isActive ==> IsActive(Step(t, Owner(c)))
    ensures !c.isActive ==> IsSuspended(Step(t, Owner(c)))
    ensures !c.isActive && Allowed(Step, KeepsOff(), Step(t, Owner(c)), later) ==> IsSuspended(Run(Step, Step(t, Owner(c)), later))
  {
    if !c.isActive && Allowed(Step, KeepsOff(), Step(t, Owner(c)), later) { StaysOff(Step(t, Owner(c)), later); }
  }

  lemma {:induction false} StaysOff(t: Table, later: seq<Event>)
    requires IsSuspended(t) && Allowed(Step, KeepsOff(), t, later)
    ensures IsSuspended(Run(Step, t, later))
    decreases |later|
  {
    if later != [] {
      assert KeepsOff()(t, later[0]);
      StaysOff(Step(t, later[0]), later[1..]);
    }
  }

  /** The row is suspended after an owner command that is Done(false), and only an owner's Done(true), a write by
  anyone else or a removal can end that. */
  lemma SuspensionEnds(t: Table, e: Event)
    requires IsSuspended(t) && !IsSuspended(Step(t, e))
    ensures e.Other? || e.Remove? || Answer(t.row, e.command) == Done(true)
  {
  }

  ghost predicate Sound(t: Table) {
    t.row.Some? ==> t.row.value.writer < t.next && (t.row.value.mark.Some? ==> t.row.value.mark.value < t.next)
  }

  /** The event, in the table it meets, is an owner switching Financials off. */
  predicate OwnerSwitchesOff(t: Table, e: Event) {
    e.Owner? && !e.command.isActive && Answer(t.row, e.command).Done?
  }

  predicate WritesNothing(t: Table, e: Event) { e.Owner? && !Answer(t.row, e.command).Done? }

  predicate IsActive(t: Table) { t.row.Some? && t.row.value.status == Active }

  ghost function At(t: Table, events: seq<Event>, k: nat): Table
    requires k <= |events|
  {
    Run(Step, t, events[..k])
  }

  /** The state goes back, through owner switch-offs alone, to an owner switching off an active row at k. */
  ghost predicate OffSince(t: Table, events: seq<Event>, k: nat) {
    && k < |events|
    && IsActive(At(t, events, k)) && OwnerSwitchesOff(At(t, events, k), events[k])
    && forall j :: k < j < |events| ==>
                     OwnerSwitchesOff(At(t, events, j), events[j]) || WritesNothing(At(t, events, j), events[j])
  }

  /** The mark counted at the start, as on rows carried over by migration 0474, and only owner switch-offs followed. */
  ghost predicate OffFromStart(t: Table, events: seq<Event>) {
    && t.row.Some? && OwnerOff(t.row.value)
    && forall j :: 0 <= j < |events| ==>
                     OwnerSwitchesOff(At(t, events, j), events[j]) || WritesNothing(At(t, events, j), events[j])
  }

  ghost predicate OffByOwner(t: Table, events: seq<Event>) { OffFromStart(t, events) || exists k :: OffSince(t, events, k) }

  lemma StepSound(t: Table, e: Event)
    requires Sound(t)
    ensures Sound(Step(t, e))
  {
  }

  lemma {:induction false} AlwaysSound(t: Table, events: seq<Event>)
    requires Sound(t)
    ensures Sound(Run(Step, t, events))
    decreases |events|
  {
    if events != [] {
      StepSound(t, events[0]);
      AlwaysSound(Step(t, events[0]), events[1..]);
    }
  }

  /** One event: the mark counts afterwards in exactly these cases. */
  lemma MarkStep(t: Table, e: Event)
    requires Sound(t)
    ensures var after := Step(t, e);
            after.row.Some? && OwnerOff(after.row.value) <==>
            || (WritesNothing(t, e) && t.row.Some? && OwnerOff(t.row.value))
            || (OwnerSwitchesOff(t, e) && (IsActive(t) || OwnerOff(t.row.value)))
  {
  }

  lemma {:induction false} OffByOwnerStep(t: Table, events: seq<Event>)
    requires events != []
    ensures var init, before, e := events[..|events| - 1], At(t, events, |events| - 1), events[|events| - 1];
            OffByOwner(t, events) <==>
            || (WritesNothing(before, e) && OffByOwner(t, init))
            || (OwnerSwitchesOff(before, e) && (IsActive(before) || OffByOwner(t, init)))
  {
    var n := |events| - 1;
    var init := events[..n];
    forall j: nat | j <= n ensures At(t, init, j) == At(t, events, j) { assert init[..j] == events[..j]; }
    if k: nat :| OffSince(t, events, k) && k < n {
      assert OffSince(t, init, k);
    }
    if k: nat :| OffSince(t, init, k) {
      if OwnerSwitchesOff(At(t, events, n), events[n]) || WritesNothing(At(t, events, n), events[n]) {
        assert OffSince(t, events, k);
      }
    }
    if IsActive(At(t, events, n)) && OwnerSwitchesOff(At(t, events, n), events[n]) {
      assert OffSince(t, events, n);
    }
    StartStep(t, events);
  }

  lemma {:induction false} StartStep(t: Table, events: seq<Event>)
    requires events != []
    ensures var n := |events| - 1;
            OffFromStart(t, events) <==>
              OffFromStart(t, events[..n])
              && (OwnerSwitchesOff(At(t, events, n), events[n]) || WritesNothing(At(t, events, n), events[n]))
  {
    var n := |events| - 1;
    var init := events[..n];
    forall j: nat | j <= n ensures At(t, init, j) == At(t, events, j) { assert init[..j] == events[..j]; }
    assert forall j :: 0 <= j < n ==> init[j] == events[j];
  }

  /** After any history the mark counts exactly when the owner's switch-off of an active row still stands. */
  lemma {:induction false} MarkMeansOwner(t: Table, events: seq<Event>)
    requires Sound(t)
    ensures var after := Run(Step, t, events);
            after.row.Some? && OwnerOff(after.row.value) <==> OffByOwner(t, events)
  {
    if events != [] {
      var n := |events| - 1;
      MarkMeansOwner(t, events[..n]);
      AlwaysSound(t, events[..n]);
      RunLast(Step, t, events);
      MarkStep(At(t, events, n), events[n]);
      OffByOwnerStep(t, events);
    }
  }

  /** An owner whose other checks all pass can switch a suspended row back on exactly when the suspension is
      an owner's own, through owner writes alone. */
  lemma ReenableOnlyOwnOff(t: Table, events: seq<Event>, c: Command)
    requires Sound(t)
    requires var row := Run(Step, t, events).row; row.Some? && row.value.ready && row.value.status == Suspended
    requires c == Command(true, true, true, true)
    ensures Answer(Run(Step, t, events).row, c) == Done(true) <==> OffByOwner(t, events)
  {
    MarkMeansOwner(t, events);
  }

  /** Someone else's suspension cancels the owner's claim, and no sequence of owner commands brings it back. */
  lemma OthersSuspensionStays(t: Table, before: seq<Event>, other: Event, later: seq<Event>, c: Command)
    requires Sound(t)
    requires other.Other? && other.status != Active && c.isActive
    requires forall e :: e in later ==> e.Owner?
    ensures !Answer(Run(Step, t, before + [other] + later).row, c).Done?
  {
    AlwaysSound(t, before);
    RunConcat(Step, t, before + [other], later);
    RunConcat(Step, t, before, [other]);
    var suspended := Step(Run(Step, t, before), other);
    RunFirst(Step, Run(Step, t, before), other, []);
    StepSound(Run(Step, t, before), other);
    NotMine(suspended, later);
  }

  lemma {:induction false} NotMine(t: Table, later: seq<Event>)
    requires Sound(t) && !IsActive(t) && (t.row.Some? ==> !OwnerOff(t.row.value))
    requires forall e :: e in later ==> e.Owner?
    ensures var after := Run(Step, t, later); !IsActive(after) && (after.row.Some? ==> !OwnerOff(after.row.value))
    decreases |later|
  {
    if later != [] {
      assert later[0] in later;
      StepSound(t, later[0]);
      NotMine(Step(t, later[0]), later[1..]);
    }
  }
}
