/** The logo receipt protocol (apps/api/src/hotelSetupLogoRuntime.ts, `recordArtifact` and the
`beforeWriteVariant` hook). Any number of finalizations of one upload session run at once, each statement of
`recordArtifact` is one step, and a COMMIT may end in an error whose outcome nobody knows yet. */
module LogoReceipts {
  import opened Options
  import opened Runs

  /** A receipt: the media id and the variant's record, compared as one value. */
  type Artifact = nat

  /** Where one call of `recordArtifact` stands, and what follows it. */
  datatype Phase =
    | Begun        // BEGIN
    | Authorized   // the owner's authority was locked and holds
    | Appended     // the UPDATE matched: the row is locked, the receipt not yet committed
    | Missed       // the UPDATE matched nothing
    | Found        // the receipt was already there
    | Unsure       // COMMIT ended in an error
    | Rechecking   // a second transaction, authority held again
    | Confirmed    // the inspection found the receipt
    | MayWrite     // recordArtifact returned
    | Wrote        // the private object was written
    | Failed       // an error was thrown

  datatype Call = Call(artifact: Artifact, phase: Phase)

  /** An uncommitted append holding the session's row; `doubt` once its COMMIT was sent and lost. */
  datatype Append = Append(call: nat, artifact: Artifact, doubt: bool)

  datatype World = World(manifest: seq<Artifact>, signed: bool, pending: Option<Append>,
                         calls: map<nat, Call>, objects: set<Artifact>)

  datatype Fate = Applied | RolledBack | Unknown

  datatype Event =
    | Begin(call: nat, artifact: Artifact)
    | Authorize(call: nat, allowed: bool)
    | Update(call: nat)
    | Reread(call: nat)
    | Commit(call: nat)
    | CommitError(call: nat, fate: Fate)
    | Resolve(applied: bool)               // the lost COMMIT turns out one way or the other
    | AuthorizeAgain(call: nat, allowed: bool)
    | Inspect(call: nat)
    | CommitInspection(call: nat, ok: bool)
    | Put(call: nat)
    | Crash(call: nat)
    | SetSigned(signed: bool)              // anyone else moves the session's status

  predicate In(w: World, call: nat, phase: Phase) { call in w.calls && w.calls[call].phase == phase }

  function To(w: World, call: nat, phase: Phase): World
    requires call in w.calls
  {
    w.(calls := w.calls[call := w.calls[call].(phase := phase)])
  }

  /** The receipt is committed in a session that is still being signed. */
  predicate Stored(w: World, call: nat)
    requires call in w.calls
  {
    w.signed && w.calls[call].artifact in w.manifest
  }

  function Land(w: World): World
    requires w.pending.Some?
  {
    w.(manifest := w.manifest + [w.pending.value.artifact], pending := None)
  }

  predicate Holds(w: World, call: nat) { w.pending.Some? && w.pending.value.call == call && !w.pending.value.doubt }

  /** An event that cannot happen in this state changes nothing. */
  function Step(w: World, e: Event): World {
    match e
    case Begin(c, a) => if c in w.calls then w else w.(calls := w.calls[c := Call(a, Begun)])
    case Authorize(c, allowed) => if In(w, c, Begun) then To(w, c, if allowed then Authorized else Failed) else w
    case Update(c) =>
      if !In(w, c, Authorized) || w.pending.Some? then w
      else if w.signed && w.calls[c].artifact !in w.manifest
      then To(w, c, Appended).(pending := Some(Append(c, w.calls[c].artifact, false)))
      else To(w, c, Missed)
    case Reread(c) => if In(w, c, Missed) then To(w, c, if Stored(w, c) then Found else Failed) else w
    case Commit(c) =>
      if In(w, c, Appended) && Holds(w, c) then To(Land(w), c, MayWrite)
      else if In(w, c, Found) then To(w, c, MayWrite)
      else w
    case CommitError(c, fate) =>
      if In(w, c, Appended) && Holds(w, c) then
        match fate
        case Applied => To(Land(w), c, Unsure)
        case RolledBack => To(w, c, Unsure).(pending := None)
        case Unknown => To(w, c, Unsure).(pending := Some(w.pending.value.(doubt := true)))
      else if In(w, c, Found) then To(w, c, Unsure)
      else w
    case Resolve(applied) =>
      if w.pending.None? || !w.pending.value.doubt then w
      else if applied then Land(w) else w.(pending := None)
    case AuthorizeAgain(c, allowed) => if In(w, c, Unsure) then To(w, c, if allowed then Rechecking else Failed) else w
    case Inspect(c) => if In(w, c, Rechecking) then To(w, c, if Stored(w, c) then Confirmed else Failed) else w
    case CommitInspection(c, ok) => if In(w, c, Confirmed) then To(w, c, if ok then MayWrite else Failed) else w
    case Put(c) => if In(w, c, MayWrite) then To(w, c, Wrote).(objects := w.objects + {w.calls[c].artifact}) else w
    case Crash(c) =>
      if c in w.calls && w.calls[c].phase != Wrote
      then To(w, c, Failed).(pending := if Holds(w, c) then None else w.pending)
      else w
    case SetSigned(b) => if w.pending.Some? then w else w.(signed := b)
  }

  const START := World([], true, None, map[], {})

  // ----- what every step keeps -----

  ghost predicate NoRepeats(s: seq<Artifact>) { forall i, j :: 0 <= i < j < |s| ==> s[i] != s[j] }

  predicate Backed(phase: Phase) { phase in {Found, Confirmed, MayWrite, Wrote} }

  ghost predicate Safe(w: World) {
    && NoRepeats(w.manifest)
    && (w.pending.Some? ==> w.pending.value.artifact !in w.manifest)
    && (forall c :: c in w.calls && Backed(w.calls[c].phase) ==> w.calls[c].artifact in w.manifest)
    && (forall c :: In(w, c, Appended) && Holds(w, c) ==> w.pending.value.artifact == w.calls[c].artifact)
    && (forall a :: a in w.objects ==> a in w.manifest)
  }

  lemma LandSafe(w: World)
    requires Safe(w) && w.pending.Some?
    ensures Safe(Land(w))
    ensures w.pending.value.artifact in Land(w).manifest
  {
    var m := Land(w).manifest;
    assert m[|w.manifest|] == w.pending.value.artifact;
    forall a | a in w.manifest ensures a in m {
      var i :| 0 <= i < |w.manifest| && w.manifest[i] == a;
      assert m[i] == a;
    }
  }

  lemma ToSafe(w: World, c: nat, phase: Phase)
    requires Safe(w) && c in w.calls && (Backed(phase) ==> w.calls[c].artifact in w.manifest)
    requires phase == Appended && Holds(w, c) ==> w.pending.value.artifact == w.calls[c].artifact
    ensures Safe(To(w, c, phase))
  {
  }

  lemma PendingSafe(w: World, pending: Option<Append>)
    requires Safe(w)
    requires pending.Some? ==> pending.value.artifact !in w.manifest
    requires pending.Some? && !pending.value.doubt && In(w, pending.value.call, Appended) ==>
               pending.value.artifact == w.calls[pending.value.call].artifact
    ensures Safe(w.(pending := pending))
  {
  }

  lemma CommitSafe(w: World, e: Event)
    requires Safe(w) && (e.Commit? || e.CommitError? || e.Resolve?)
    ensures Safe(Step(w, e))
  {
    if w.pending.Some? { LandSafe(w); }
    if e.Resolve? {
      PendingSafe(w, None);
    } else if In(w, e.call, Appended) && Holds(w, e.call) {
      var next := if e.Commit? then MayWrite else Unsure;
      if e.Commit? || e.fate == Applied {
        ToSafe(Land(w), e.call, next);
      } else {
        ToSafe(w, e.call, next);
        PendingSafe(To(w, e.call, next), if e.fate == RolledBack then None else Some(w.pending.value.(doubt := true)));
      }
    } else if In(w, e.call, Found) {
      ToSafe(w, e.call, if e.Commit? then MayWrite else Unsure);
    }
  }

  lemma StepSafe(w: World, e: Event)
    requires Safe(w)
    ensures Safe(Step(w, e))
  {
    match e
    case Begin(c, a) =>
    case Authorize(c, allowed) => if In(w, c, Begun) { ToSafe(w, c, if allowed then Authorized else Failed); }
    case Update(c) =>
      if In(w, c, Authorized) && w.pending.None? {
        ToSafe(w, c, Missed);
        ToSafe(w, c, Appended);
        if w.calls[c].artifact !in w.manifest {
          PendingSafe(To(w, c, Appended), Some(Append(c, w.calls[c].artifact, false)));
        }
      }
    case Reread(c) => if In(w, c, Missed) { ToSafe(w, c, if Stored(w, c) then Found else Failed); }
    case Commit(c) => CommitSafe(w, e);
    case CommitError(c, fate) => CommitSafe(w, e);
    case Resolve(applied) => CommitSafe(w, e);
    case AuthorizeAgain(c, allowed) => if In(w, c, Unsure) { ToSafe(w, c, if allowed then Rechecking else Failed); }
    case Inspect(c) => if In(w, c, Rechecking) { ToSafe(w, c, if Stored(w, c) then Confirmed else Failed); }
    case CommitInspection(c, ok) => if In(w, c, Confirmed) { ToSafe(w, c, if ok then MayWrite else Failed); }
    case Put(c) => if In(w, c, MayWrite) { ToSafe(w, c, Wrote); }
    case Crash(c) =>
      if c in w.calls {
        ToSafe(w, c, Failed);
        PendingSafe(To(w, c, Failed), None);
      }
    case SetSigned(b) =>
  }

  lemma StepAppends(w: World, e: Event)
    ensures w.manifest <= Step(w, e).manifest
  {
  }

  lemma {:induction false} AlwaysSafe(w: World, events: seq<Event>)
    requires Safe(w)
    ensures Safe(Run(Step, w, events))
    ensures w.manifest <= Run(Step, w, events).manifest
    decreases |events|
  {
    if events != [] {
      StepSafe(w, events[0]);
      StepAppends(w, events[0]);
      AlwaysSafe(Step(w, events[0]), events[1..]);
    }
  }

  /** Under any failure and any interleaving: no receipt is stored twice, every private object has its receipt
      in the manifest, and no later event takes a receipt away. */
  lemma EveryObjectHasItsReceipt(events: seq<Event>, later: seq<Event>)
    ensures NoRepeats(Run(Step, START, events).manifest)
    ensures forall a :: a in Run(Step, START, events).objects ==> a in Run(Step, START, events).manifest
    ensures Run(Step, START, events).manifest <= Run(Step, START, events + later).manifest
  {
    AlwaysSafe(START, events);
    RunConcat(Step, START, events, later);
    AlwaysSafe(Run(Step, START, events), later);
  }

  /** A write that happens finds its receipt already committed before it. */
  lemma {:induction false} ReceiptComesFirst(events: seq<Event>, call: nat)
    requires Run(Step, START, events + [Put(call)]).objects != Run(Step, START, events).objects
    ensures var before := Run(Step, START, events);
            call in before.calls && before.calls[call].artifact in before.manifest
  {
    var before := Run(Step, START, events);
    AlwaysSafe(START, events);
    RunConcat(Step, START, events, [Put(call)]);
    RunFirst(Step, before, Put(call), []);
    assert In(before, call, MayWrite);
  }

  /** A lost COMMIT lets the object be written only after the receipt was seen stored: while it is in doubt,
      the inspection fails. */
  lemma {:induction false} InDoubtNothingIsWritten(events: seq<Event>, call: nat)
    requires var w := Run(Step, START, events);
             In(w, call, Rechecking) && w.pending.Some? && w.pending.value.artifact == w.calls[call].artifact
    ensures In(Step(Run(Step, START, events), Inspect(call)), call, Failed)
  {
    AlwaysSafe(START, events);
  }

  /** The statements of a call that nothing disturbs. */
  function Undisturbed(w: World, call: nat, artifact: Artifact): seq<Event> {
    Opening(call, artifact) + (if artifact in w.manifest then [Reread(call)] + [Commit(call)] else [Commit(call)])
  }

  function Opening(call: nat, artifact: Artifact): seq<Event> { [Begin(call, artifact)] + ([Authorize(call, true)] + [Update(call)]) }

  lemma OpeningLeads(w: World, call: nat, artifact: Artifact)
    requires call !in w.calls && w.signed && w.pending.None?
    ensures Run(Step, w, Opening(call, artifact))
         == if artifact in w.manifest then w.(calls := w.calls[call := Call(artifact, Missed)])
            else w.(calls := w.calls[call := Call(artifact, Appended)], pending := Some(Append(call, artifact, false)))
  {
    var w1 := Step(w, Begin(call, artifact));
    RunFirst(Step, w, Begin(call, artifact), [Authorize(call, true)] + [Update(call)]);
    RunFirst(Step, w1, Authorize(call, true), [Update(call)]);
    RunFirst(Step, Step(w1, Authorize(call, true)), Update(call), []);
  }

  /** Undisturbed, a call ends with its receipt stored exactly once and may write. */
  lemma UndisturbedIsStored(w: World, call: nat, artifact: Artifact)
    requires call !in w.calls && w.signed && w.pending.None?
    ensures var w' := Run(Step, w, Undisturbed(w, call, artifact));
            && w'.calls == w.calls[call := Call(artifact, MayWrite)]
            && w'.manifest == if artifact in w.manifest then w.manifest else w.manifest + [artifact]
  {
    OpeningLeads(w, call, artifact);
    var w3 := Run(Step, w, Opening(call, artifact));
    if artifact in w.manifest {
      RunConcat(Step, w, Opening(call, artifact), [Reread(call)] + [Commit(call)]);
      RunFirst(Step, w3, Reread(call), [Commit(call)]);
      RunFirst(Step, Step(w3, Reread(call)), Commit(call), []);
    } else {
      RunConcat(Step, w, Opening(call, artifact), [Commit(call)]);
      RunFirst(Step, w3, Commit(call), []);
    }
  }

  /** The statements that follow a COMMIT that ended in an error. */
  function Inspection(call: nat, fate: Fate): seq<Event> {
    [CommitError(call, fate)] + ([AuthorizeAgain(call, true)] + ([Inspect(call)] + [CommitInspection(call, true)]))
  }

  /** What the lost COMMIT leaves: the receipt stored exactly when it was applied. */
  lemma AfterCommitError(w: World, call: nat, fate: Fate)
    requires Safe(w) && In(w, call, Appended) && Holds(w, call)
    ensures var w1 := Step(w, CommitError(call, fate));
            && In(w1, call, Unsure) && w1.signed == w.signed && w1.calls[call].artifact == w.calls[call].artifact
            && (w.calls[call].artifact in w1.manifest <==> fate == Applied)
  {
    LandSafe(w);
  }

  /** An inspection that owns its authority and COMMIT lets the call write exactly when it finds the receipt. */
  lemma InspectionFinds(w: World, call: nat)
    requires In(w, call, Unsure) && w.signed
    ensures var w' := Run(Step, w, [AuthorizeAgain(call, true)] + ([Inspect(call)] + [CommitInspection(call, true)]));
            In(w', call, if w.calls[call].artifact in w.manifest then MayWrite else Failed)
  {
    var w2 := Step(w, AuthorizeAgain(call, true));
    var w3 := Step(w2, Inspect(call));
    RunFirst(Step, w, AuthorizeAgain(call, true), [Inspect(call)] + [CommitInspection(call, true)]);
    RunFirst(Step, w2, Inspect(call), [CommitInspection(call, true)]);
    RunFirst(Step, w3, CommitInspection(call, true), []);
  }

  /** Undisturbed, the inspection after a lost COMMIT lets the call write exactly when the receipt did get stored. */
  lemma InspectionDecides(w: World, call: nat, fate: Fate)
    requires Safe(w) && In(w, call, Appended) && Holds(w, call) && w.signed
    ensures In(Run(Step, w, Inspection(call, fate)), call, MayWrite) <==> fate == Applied
    ensures In(Run(Step, w, Inspection(call, fate)), call, Failed) <==> fate != Applied
  {
    AfterCommitError(w, call, fate);
    InspectionFinds(Step(w, CommitError(call, fate)), call);
    RunFirst(Step, w, CommitError(call, fate), [AuthorizeAgain(call, true)] + ([Inspect(call)] + [CommitInspection(call, true)]));
  }

  // ----- recordArtifact, statement by statement -----

  /** The event belongs to this call. */
  predicate Of(e: Event, call: nat) { !e.Resolve? && !e.SetSigned? && e.call == call }

  predicate Foreign(events: seq<Event>, call: nat) { forall i :: 0 <= i < |events| ==> !Of(events[i], call) }

  lemma {:induction false} OthersLeaveCall(w: World, events: seq<Event>, call: nat)
    requires call in w.calls && Foreign(events, call)
    ensures var w' := Run(Step, w, events); call in w'.calls && w'.calls[call] == w.calls[call]
    decreases |events|
  {
    if events != [] {
      assert !Of(events[0], call);
      OneLeavesCall(w, events[0], call);
      OthersLeaveCall(Step(w, events[0]), events[1..], call);
    }
  }

  lemma OneLeavesCall(w: World, e: Event, call: nat)
    requires call in w.calls && !Of(e, call)
    ensures call in Step(w, e).calls && Step(w, e).calls[call] == w.calls[call]
  {
  }

  /** Where a statement of the call can take it. */
  function After(phase: Phase, e: Event): set<Phase> {
    match e
    case Authorize(_, allowed) => if phase == Begun then {if allowed then Authorized else Failed} else {phase}
    case Update(_) => if phase == Authorized then {Authorized, Appended, Missed} else {phase}
    case Reread(_) => if phase == Missed then {Found, Failed} else {phase}
    case Commit(_) => if phase == Appended || phase == Found then {phase, MayWrite} else {phase}
    case CommitError(_, _) => if phase == Appended || phase == Found then {phase, Unsure} else {phase}
    case AuthorizeAgain(_, allowed) => if phase == Unsure then {if allowed then Rechecking else Failed} else {phase}
    case Inspect(_) => if phase == Rechecking then {Confirmed, Failed} else {phase}
    case CommitInspection(_, ok) => if phase == Confirmed then {if ok then MayWrite else Failed} else {phase}
    case Put(_) => if phase == MayWrite then {Wrote} else {phase}
    case Crash(_) => if phase == Wrote then {Wrote} else {Failed}
    case _ => {phase}
  }

  lemma StepPhase(w: World, e: Event, call: nat)
    requires call in w.calls && Of(e, call)
    ensures call in Step(w, e).calls && Step(w, e).calls[call].phase in After(w.calls[call].phase, e)
  {
  }

  lemma StepKeepsArtifact(w: World, e: Event, call: nat)
    requires call in w.calls
    ensures call in Step(w, e).calls && Step(w, e).calls[call].artifact == w.calls[call].artifact
  {
  }

  /** How the statements of one call end that the call itself does not decide. */
  datatype Fortune = Fortune(allowed: bool, commitFails: Option<Fate>, allowedAgain: bool, inspectionCommits: bool)

  class Session {
    var world: World

    constructor ()
      ensures world == START
    {
      world := START;
    }

    /** While a statement is awaited, other calls and other parties go on. */
    method Await(events: seq<Event>, ghost call: nat)
      requires Safe(world) && call in world.calls && Foreign(events, call)
      modifies this
      ensures Safe(world) && old(world).manifest <= world.manifest
      ensures world == Run(Step, old(world), events)
      ensures call in world.calls && world.calls[call] == old(world).calls[call]
    {
      ghost var start := world;
      AlwaysSafe(start, events);
      OthersLeaveCall(start, events, call);
      assert events[..0] == [];
      for i := 0 to |events|
        invariant world == Run(Step, start, events[..i])
      {
        assert events[..i + 1][..i] == events[..i];
        RunLast(Step, start, events[..i + 1]);
        world := Step(world, events[i]);
      }
      assert events[..|events|] == events;
    }

    /** One statement of the call: what others do while it is awaited, then its own effect. */
    method Send(waited: seq<Event>, e: Event, call: nat, ghost before: seq<Artifact>)
      requires Safe(world) && before <= world.manifest && Of(e, call) && call in world.calls && Foreign(waited, call)
      modifies this
      ensures Safe(world) && before <= world.manifest && call in world.calls
      ensures world.calls[call].artifact == old(world).calls[call].artifact
      ensures world.calls[call].phase in After(old(world).calls[call].phase, e)
    {
      Await(waited, call);
      StepPhase(world, e, call);
      StepSafe(world, e);
      StepAppends(world, e);
      StepKeepsArtifact(world, e, call);
      world := Step(world, e);
    }

    /** The UPDATE, and the look at what is stored when it matched nothing. */
    method AppendOrFind(call: nat, wait1: seq<Event>, wait2: seq<Event>, ghost before: seq<Artifact>) returns (found: bool)
      requires Safe(world) && before <= world.manifest && In(world, call, Authorized)
      requires Foreign(wait1, call) && Foreign(wait2, call)
      modifies this
      ensures Safe(world) && before <= world.manifest && call in world.calls
      ensures world.calls[call].artifact == old(world).calls[call].artifact
      ensures found <==> world.calls[call].phase == Appended || world.calls[call].phase == Found
      ensures world.calls[call].phase in {Authorized, Appended, Found, Failed}
    {
      Send(wait1, Update(call), call, before);
      if world.calls[call].phase == Missed { Send(wait2, Reread(call), call, before); }
      found := world.calls[call].phase == Appended || world.calls[call].phase == Found;
    }

    /** The transaction that appends the receipt, up to and including its COMMIT. */
    method Persist(call: nat, fortune: Fortune, wait1: seq<Event>, wait2: seq<Event>, wait3: seq<Event>, wait4: seq<Event>,
                   ghost before: seq<Artifact>) returns (commitAttempted: bool)
      requires Safe(world) && before <= world.manifest && In(world, call, Begun)
      requires Foreign(wait1, call) && Foreign(wait2, call) && Foreign(wait3, call) && Foreign(wait4, call)
      modifies this
      ensures Safe(world) && before <= world.manifest && call in world.calls
      ensures world.calls[call].artifact == old(world).calls[call].artifact && world.calls[call].phase != Wrote
      ensures world.calls[call].phase == MayWrite ==> commitAttempted && fortune.allowed && fortune.commitFails.None?
    {
      commitAttempted := false;
      Send(wait1, Authorize(call, fortune.allowed), call, before);
      if !fortune.allowed { return; }
      commitAttempted := AppendOrFind(call, wait2, wait3, before);
      if commitAttempted {
        var e := if fortune.commitFails.None? then Commit(call) else CommitError(call, fortune.commitFails.value);
        Send(wait4, e, call, before);
      }
    }

    /** The inspection after a COMMIT that ended in an error. */
    method Reconcile(call: nat, fortune: Fortune, wait1: seq<Event>, wait2: seq<Event>, wait3: seq<Event>, ghost before: seq<Artifact>)
      requires Safe(world) && before <= world.manifest && call in world.calls && world.calls[call].phase != MayWrite && world.calls[call].phase != Wrote
      requires Foreign(wait1, call) && Foreign(wait2, call) && Foreign(wait3, call)
      modifies this
      ensures Safe(world) && before <= world.manifest && call in world.calls
      ensures world.calls[call].artifact == old(world).calls[call].artifact && world.calls[call].phase != Wrote
      ensures world.calls[call].phase == MayWrite ==> fortune.inspectionCommits
    {
      Send(wait1, AuthorizeAgain(call, fortune.allowedAgain), call, before);
      Send(wait2, Inspect(call), call, before);
      Send(wait3, CommitInspection(call, fortune.inspectionCommits), call, before);
    }

    method Start(call: nat, artifact: Artifact)
      requires Safe(world) && call !in world.calls
      modifies this
      ensures Safe(world) && world.manifest == old(world).manifest && call in world.calls
      ensures world.calls[call] == Call(artifact, Begun)
    {
      StepSafe(world, Begin(call, artifact));
      world := Step(world, Begin(call, artifact));
    }

    /** `recordArtifact`, with anything happening at each wait: it returns only with the receipt committed, and no
    receipt is lost or stored twice on the way. */
    method RecordArtifact(call: nat, artifact: Artifact, fortune: Fortune, waits: seq<seq<Event>>) returns (stored: bool)
      requires Safe(world) && call !in world.calls && |waits| == 7
      requires forall k :: 0 <= k < |waits| ==> Foreign(waits[k], call)
      modifies this
      ensures Safe(world) && old(world).manifest <= world.manifest && call in world.calls
      ensures stored ==> artifact in world.manifest && world.calls[call] == Call(artifact, MayWrite)
      ensures !stored ==> world.calls[call] == Call(artifact, Failed)
    {
      ghost var before := world.manifest;
      Start(call, artifact);
      var commitAttempted := Persist(call, fortune, waits[0], waits[1], waits[2], waits[3], before);
      if commitAttempted && world.calls[call].phase != MayWrite { Reconcile(call, fortune, waits[4], waits[5], waits[6], before); }
      stored := world.calls[call].phase == MayWrite;
      if !stored { Send([], Crash(call), call, before); }
    }
  }
}
