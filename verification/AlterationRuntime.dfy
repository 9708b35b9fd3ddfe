/** The Airbnb alteration runtime's work and shutdown (apps/api/src/airbnbAlterationRuntime.ts). Each method
is one stretch of the code that runs without waiting; anything may happen between two stretches. */
module AlterationRuntime {
  import opened Options
  import opened Runs

  /** A piece of work: one batch or one decision. */
  type Work = nat

  /** The closure's variables, and around them the work that has not settled yet, everything ever started,
      the `close` calls still waiting with what each one waits for, and whether the pools were ended. */
  datatype Runtime = Runtime(
    closed: bool, batch: Option<Work>, decisions: set<Work>,
    batchesRunning: set<Work>, decisionsRunning: set<Work>, started: set<Work>,
    closing: map<nat, set<Work>>, poolsEnded: bool)

  const INITIAL := Runtime(false, None, {}, {}, {}, {}, map[], false)

  datatype Event =
    | Decide(work: Work, owns: bool, listed: bool)  // a decision is asked for
    | Tick(work: Work, owns: bool)                  // the timer fires
    | Settle(work: Work)                            // a piece of work succeeds or fails
    | AfterDecision(work: Work)                     // the decision's `finally`
    | AfterBatch                                    // the batch's `finally`
    | Close(call: nat)                              // `close` runs up to its first wait
    | EndPools(call: nat)                           // that wait is over

  function Settled(r: Runtime, w: Work): bool {
    w !in r.batchesRunning && w !in r.decisionsRunning && r.batch != Some(w)
  }

  /** `Promise.allSettled` of everything this call collected is done. */
  function MayEnd(r: Runtime, call: nat): bool {
    call in r.closing && forall w :: w in r.closing[call] ==> Settled(r, w)
  }

  function Step(r: Runtime, e: Event): Runtime {
    match e
    case Decide(w, owns, listed) =>
      if r.closed || !owns || !listed || w in r.started then r
      else r.(decisions := r.decisions + {w}, decisionsRunning := r.decisionsRunning + {w}, started := r.started + {w})
    case Tick(w, owns) =>
      if r.closed || !owns || r.batch.Some? || w in r.started then r
      else r.(batch := Some(w), batchesRunning := r.batchesRunning + {w}, started := r.started + {w})
    case Settle(w) => r.(batchesRunning := r.batchesRunning - {w}, decisionsRunning := r.decisionsRunning - {w})
    case AfterDecision(w) => if w in r.decisionsRunning then r else r.(decisions := r.decisions - {w})
    case AfterBatch => if r.batch.Some? && r.batch.value !in r.batchesRunning then r.(batch := None) else r
    case Close(call) =>
      r.(closed := true,
         closing := r.closing[call := r.decisions + (if r.batch.Some? then {r.batch.value} else {})])
    case EndPools(call) => if MayEnd(r, call) then r.(poolsEnded := true, closing := r.closing - {call}) else r
  }

  /** The runtime object, with the world's view of its work. */
  class Adapter {
    var closed: bool
    var batch: Option<Work>
    var decisions: set<Work>
    var batchesRunning: set<Work>
    var decisionsRunning: set<Work>
    var started: set<Work>
    var closing: map<nat, set<Work>>
    var poolsEnded: bool

    ghost function Value(): Runtime
      reads this
    {
      Runtime(closed, batch, decisions, batchesRunning, decisionsRunning, started, closing, poolsEnded)
    }

    constructor ()
      ensures Value() == INITIAL
    {
      closed, batch, decisions := false, None, {};
      batchesRunning, decisionsRunning, started, closing, poolsEnded := {}, {}, {}, map[], false;
    }

    predicate OwnsMutation(configured: bool)
      reads this`closed
    {
      !closed && configured
    }

    /** `decide` up to its wait; `work` is the pending decision it would create. */
    method DecideStart(work: Work, configured: bool, listed: bool) returns (accepted: bool)
      requires work !in started
      modifies this
      ensures accepted ==> work in decisions && work in decisionsRunning && work in started
      ensures !accepted ==> Value() == old(Value())
      ensures Value() == Step(old(Value()), Decide(work, configured, listed))
      ensures accepted <==> !old(closed) && configured && listed
    {
      if !OwnsMutation(configured) || !listed { return false; }
      started, decisionsRunning := started + {work}, decisionsRunning + {work};
      decisions := decisions + {work};
      accepted := true;
    }

    method DecideFinally(work: Work)
      requires work !in decisionsRunning
      modifies this
      ensures decisions == old(decisions) - {work}
      ensures Value() == Step(old(Value()), AfterDecision(work))
    {
      decisions := decisions - {work};
    }

    /** `tick`: joins the batch in flight, or starts one. */
    method TickStart(work: Work, configured: bool) returns (joined: Option<Work>)
      requires work !in started
      modifies this
      ensures joined == Some(work) && old(batch).None? ==> batch == Some(work) && work in batchesRunning && work in started
      ensures joined.None? || old(batch).Some? ==> Value() == old(Value())
      ensures Value() == Step(old(Value()), Tick(work, configured))
      ensures joined == if old(closed) || !configured then None else if old(batch).Some? then old(batch) else Some(work)
    {
      if !OwnsMutation(configured) { return None; }
      if batch.Some? { return batch; }
      started, batchesRunning := started + {work}, batchesRunning + {work};
      batch := Some(work);
      joined := batch;
    }

    method BatchFinally()
      requires batch.Some? && batch.value !in batchesRunning
      modifies this
      ensures batch.None?
      ensures Value() == Step(old(Value()), AfterBatch)
    {
      batch := None;
    }

    /** `close` up to its wait for everything in flight. */
    method CloseStart(call: nat)
      modifies this
      ensures closed && call in closing
      ensures forall w :: w in closing[call] <==> w in decisions || batch == Some(w)
      ensures Value() == Step(old(Value()), Close(call))
    {
      closed := true;
      var all := decisions + if batch.Some? then {batch.value} else {};
      closing := closing[call := all];
    }

    method CloseEnd(call: nat)
      requires MayEnd(Value(), call)
      modifies this
      ensures poolsEnded && call !in closing
      ensures Value() == Step(old(Value()), EndPools(call))
    {
      poolsEnded := true;
      closing := closing - {call};
    }
  }

  // ----- what every step keeps -----

  ghost predicate Orderly(r: Runtime) {
    && r.batchesRunning <= (if r.batch.Some? then {r.batch.value} else {})
    && r.decisionsRunning <= r.decisions
    && r.batchesRunning !! r.decisionsRunning
    && r.decisions <= r.started && (r.batch.Some? ==> r.batch.value in r.started)
    && (r.batch.Some? ==> r.batch.value !in r.decisions)
    && (r.closing != map[] ==> r.closed)
    && (forall call :: call in r.closing ==>
          && r.batchesRunning + r.decisionsRunning <= r.closing[call]
          && (r.batch.Some? ==> r.batch.value in r.closing[call]))
    && (r.poolsEnded ==> r.closed && r.batchesRunning == {} && r.decisionsRunning == {} && r.batch.None?)
  }

  lemma EndMeansIdle(r: Runtime, call: nat)
    requires Orderly(r) && MayEnd(r, call)
    ensures r.batchesRunning == {} && r.decisionsRunning == {} && r.batch.None?
  {
    forall w ensures w !in r.batchesRunning && w !in r.decisionsRunning {
      if w in r.closing[call] { assert Settled(r, w); }
    }
  }

  lemma StepOrderly(r: Runtime, e: Event)
    requires Orderly(r)
    ensures Orderly(Step(r, e))
  {
    if e.EndPools? && MayEnd(r, e.call) { EndMeansIdle(r, e.call); }
  }

  lemma {:induction false} AlwaysOrderly(r: Runtime, events: seq<Event>)
    requires Orderly(r)
    ensures Orderly(Run(Step, r, events))
    decreases |events|
  {
    if events != [] {
      StepOrderly(r, events[0]);
      AlwaysOrderly(Step(r, events[0]), events[1..]);
    }
  }

  /** In every interleaving at most one batch is in flight, and it is the one `tick` would join. */
  lemma AtMostOneBatch(events: seq<Event>)
    ensures var r := Run(Step, INITIAL, events);
            |r.batchesRunning| <= 1 && forall w :: w in r.batchesRunning ==> r.batch == Some(w)
  {
    AlwaysOrderly(INITIAL, events);
    var r := Run(Step, INITIAL, events);
    if r.batch.Some? && r.batchesRunning != {} {
      assert r.batchesRunning == {r.batch.value};
    }
  }

  /** Once `close` has begun nothing starts, whatever follows, and closed it stays. */
  lemma {:induction false} NothingStartsAfterClose(r: Runtime, events: seq<Event>)
    requires r.closed
    ensures Run(Step, r, events).closed
    ensures Run(Step, r, events).started == r.started
    ensures Run(Step, r, events).batchesRunning <= r.batchesRunning
    ensures Run(Step, r, events).decisionsRunning <= r.decisionsRunning
    decreases |events|
  {
    if events != [] { NothingStartsAfterClose(Step(r, events[0]), events[1..]); }
  }

  /** The pools end only once every batch and every decision has settled, and nothing runs after that. */
  lemma PoolsEndLast(before: seq<Event>, after: seq<Event>)
    requires Run(Step, INITIAL, before).poolsEnded
    ensures var r := Run(Step, INITIAL, before + after);
            r.batchesRunning == {} && r.decisionsRunning == {} && r.started == Run(Step, INITIAL, before).started
  {
    AlwaysOrderly(INITIAL, before);
    RunConcat(Step, INITIAL, before, after);
    NothingStartsAfterClose(Run(Step, INITIAL, before), after);
  }

  /** A waiting `close` may go on exactly when nothing is in flight any more: it neither ends early nor waits
      for anything that is already over. */
  lemma CloseWaitsExactly(events: seq<Event>, call: nat)
    requires call in Run(Step, INITIAL, events).closing
    ensures var r := Run(Step, INITIAL, events);
            MayEnd(r, call) <==> r.batchesRunning == {} && r.decisionsRunning == {} && r.batch.None?
  {
    AlwaysOrderly(INITIAL, events);
    var r := Run(Step, INITIAL, events);
    if MayEnd(r, call) { EndMeansIdle(r, call); }
  }
}
