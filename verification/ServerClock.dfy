/** The page's estimate of the server's clock (apps/booking-web/lib/serverClock.ts). The device clock
runs at a constant distance from the server's; every observation is late by a latency of its own. */
module ServerClock {
  import opened Options
  import opened Runs

  datatype Saved = Saved(offset: int, savedAt: int)

  /** The module's variables and the tab's storage, which a reload keeps. */
  datatype Clock = Clock(offset: Option<int>, restored: bool, saved: Option<Saved>)

  const RESTORE_WITHIN_MS := 15 * 60_000
  const FRESH := Clock(None, false, None)

  function Abs(x: int): int { if x < 0 then -x else x }

  /** Whether storage can be read and written during a call. */
  datatype Storage = Storage(readable: bool, writable: bool)

  predicate Restores(c: Clock, now: int, storage: Storage) {
    !c.restored && c.offset.None? && storage.readable && c.saved.Some? && Abs(now - c.saved.value.savedAt) <= RESTORE_WITHIN_MS
  }

  function Looked(c: Clock, now: int, storage: Storage): Clock {
    c.(restored := true, offset := if Restores(c, now, storage) then Some(c.saved.value.offset) else c.offset)
  }

  function Observed(c: Clock, observed: int, receivedAt: int, now: int, storage: Storage): Clock {
    var c1 := Looked(c, now, storage);
    if c1.offset.Some? && observed <= c1.offset.value then c1
    else c1.(offset := Some(observed), saved := if storage.writable then Some(Saved(observed, receivedAt)) else c1.saved)
  }

  function OffsetOrZero(c: Clock): int { if c.offset.Some? then c.offset.value else 0 }

  function Reloaded(c: Clock): Clock { c.(offset := None, restored := false) }

  /** The module as an object: its two variables, and the tab's storage beside them. */
  class Page {
    var offset: Option<int>
    var restored: bool
    var saved: Option<Saved>

    ghost function Value(): Clock
      reads this
    {
      Clock(offset, restored, saved)
    }

    constructor (stored: Option<Saved>)
      ensures Value() == Clock(None, false, stored)
    {
      offset, restored, saved := None, false, stored;
    }

    method CurrentOffset(now: int, storage: Storage) returns (current: Option<int>)
      modifies this
      ensures restored && saved == old(saved) && current == offset
      ensures offset == if !old(restored) && old(offset).None? && storage.readable && old(saved).Some?
                           && -900000 <= now - old(saved).value.savedAt <= 900000
                        then Some(old(saved).value.offset) else old(offset)
      ensures Value() == Looked(old(Value()), now, storage)
    {
      if !restored {
        restored := true;
        if storage.readable && offset.None? && saved.Some? && Abs(now - saved.value.savedAt) <= RESTORE_WITHIN_MS {
          offset := Some(saved.value.offset);
        }
      }
      current := offset;
    }

    /** `serverInstant` is None when the text is not a date. */
    method ObserveServerTime(serverInstant: Option<int>, receivedAt: int, now: int, storage: Storage)
      modifies this
      ensures serverInstant.None? ==> offset == old(offset) && restored == old(restored) && saved == old(saved)
      ensures serverInstant.Some? ==> restored && offset.Some? && offset.value >= serverInstant.value - receivedAt
      ensures serverInstant.Some? && old(offset).Some? ==> offset.value >= old(offset).value
      ensures serverInstant.Some? && old(restored) ==>
                offset.value == serverInstant.value - receivedAt || offset == old(offset)
      ensures saved == old(saved)
           || (serverInstant.Some? && storage.writable && offset == Some(serverInstant.value - receivedAt)
               && saved == Some(Saved(serverInstant.value - receivedAt, receivedAt)))
      ensures serverInstant.Some? && storage.writable && offset != old(offset) && old(restored) ==>
                saved == Some(Saved(serverInstant.value - receivedAt, receivedAt))
      ensures Value() ==
              if serverInstant.None? then old(Value())
              else Observed(old(Value()), serverInstant.value - receivedAt, receivedAt, now, storage)
    {
      if serverInstant.None? { return; }
      var observed := serverInstant.value - receivedAt;
      var prior := CurrentOffset(now, storage);
      if prior.Some? && observed <= prior.value { return; }
      offset := Some(observed);
      if storage.writable { saved := Some(Saved(observed, receivedAt)); }
    }

    method ServerNow(now: int, storage: Storage) returns (t: int)
      modifies this
      ensures Value() == Looked(old(Value()), now, storage)
      ensures t == now + OffsetOrZero(Value())
    {
      var current := CurrentOffset(now, storage);
      t := now + if current.Some? then current.value else 0;
    }

    method DeviceTimeOf(serverInstant: int, now: int, storage: Storage) returns (t: int)
      modifies this
      ensures Value() == Looked(old(Value()), now, storage)
      ensures t == serverInstant - OffsetOrZero(Value())
    {
      var current := CurrentOffset(now, storage);
      t := serverInstant - if current.Some? then current.value else 0;
    }

    /** Both conversions of a caller, in either order and with different luck at the storage: although the first call
    may restore the estimate, they agree on whether any instant has passed at any device time. */
    method BothConversions(instant: int, at: int, serverFirst: bool, now1: int, storage1: Storage, now2: int, storage2: Storage)
        returns (server: int, device: int)
      requires if serverFirst then at == now1 else at == now2
      modifies this
      ensures Value() == Looked(old(Value()), now1, storage1)
      ensures server >= instant <==> at >= device
    {
      if serverFirst {
        server := ServerNow(now1, storage1);
        device := DeviceTimeOf(instant, now2, storage2);
      } else {
        device := DeviceTimeOf(instant, now1, storage1);
        server := ServerNow(now2, storage2);
      }
    }

    method ResetServerClock()
      modifies this
      ensures Value() == Reloaded(old(Value()))
    {
      offset := None;
      restored := false;
    }
  }

  // ----- histories -----

  /** What can happen to a page: an answer arrives with some latency, something asks for the time, the page
      is loaded again. */
  datatype Event =
    | Answer(latency: nat, receivedAt: int, now: int, storage: Storage)
    | Ask(now: int, storage: Storage)
    | Reload

  /** A page and the latencies its estimate rests on, in memory and in storage: what was observed since the
      estimate was last forgotten. */
  datatype World = World(clock: Clock, held: seq<nat>, kept: seq<nat>)

  const START := World(FRESH, [], [])

  function Looking(w: World, now: int, storage: Storage): World {
    World(Looked(w.clock, now, storage), if Restores(w.clock, now, storage) then w.kept else w.held, w.kept)
  }

  /** An answer sent at server time `receivedAt + skew - latency` arrives at device time `receivedAt`. */
  function Step(skew: int, w: World, e: Event): World {
    match e
    case Answer(latency, receivedAt, now, storage) =>
      var w1 := Looking(w, now, storage);
      var clock := Observed(w.clock, skew - latency, receivedAt, now, storage);
      var held := w1.held + [latency];
      World(clock, held, if clock.saved.Some? && clock.saved.value.offset == OffsetOrZero(clock) then held else w.kept)
    case Ask(now, storage) => Looking(w, now, storage)
    case Reload => World(Reloaded(w.clock), [], w.kept)
  }

  function Steps(skew: int): (World, Event) -> World { (w, e) => Step(skew, w, e) }

  ghost predicate IsLeast(latencies: seq<nat>, m: int) {
    m in latencies && forall l :: l in latencies ==> m <= l
  }

  /** The estimate is the true offset less the smallest latency it rests on. */
  ghost predicate Tight(skew: int, offset: Option<int>, latencies: seq<nat>) {
    if offset.None? then latencies == [] else IsLeast(latencies, skew - offset.value)
  }

  ghost predicate Calibrated(skew: int, w: World) {
    && Tight(skew, w.clock.offset, w.held)
    && Tight(skew, if w.clock.saved.Some? then Some(w.clock.saved.value.offset) else None, w.kept)
    && (w.clock.offset.Some? ==> w.clock.restored)
  }

  lemma LeastOfMore(latencies: seq<nat>, m: int, l: nat)
    requires IsLeast(latencies, m)
    ensures IsLeast(latencies + [l], if l < m then l else m)
  {
    var all := latencies + [l];
    assert all[|latencies|] == l;
    assert forall x :: x in all <==> x in latencies || x == l;
  }

  lemma StepCalibrated(skew: int, w: World, e: Event)
    requires Calibrated(skew, w)
    ensures Calibrated(skew, Step(skew, w, e))
  {
    if e.Answer? {
      var w1 := Looking(w, e.now, e.storage);
      if w1.clock.offset.Some? {
        LeastOfMore(w1.held, skew - w1.clock.offset.value, e.latency);
      } else {
        assert w1.held + [e.latency] == [e.latency];
      }
    }
  }

  lemma {:induction false} AlwaysCalibrated(skew: int, w: World, events: seq<Event>)
    requires Calibrated(skew, w)
    ensures Calibrated(skew, Run(Steps(skew), w, events))
    decreases |events|
  {
    if events != [] {
      StepCalibrated(skew, w, events[0]);
      AlwaysCalibrated(skew, Step(skew, w, events[0]), events[1..]);
    }
  }

  /** After any history, once an observation is held: the estimate is never ahead of the server, and its lag
      is exactly the smallest latency observed since the estimate was last forgotten. */
  lemma NeverAheadAndClosest(skew: int, events: seq<Event>, now: int)
    requires Run(Steps(skew), START, events).held != []
    ensures var w := Run(Steps(skew), START, events);
            var shown := now + OffsetOrZero(w.clock);
            && shown <= now + skew
            && IsLeast(w.held, now + skew - shown)
  {
    AlwaysCalibrated(skew, START, events);
  }

  /** Without a reload, a held estimate only ever moves forward. */
  lemma {:induction false} NeverStepsBack(skew: int, w: World, events: seq<Event>)
    requires Calibrated(skew, w) && w.clock.offset.Some?
    requires forall i :: 0 <= i < |events| ==> !events[i].Reload?
    ensures Run(Steps(skew), w, events).clock.offset.Some?
    ensures Run(Steps(skew), w, events).clock.offset.value >= w.clock.offset.value
    decreases |events|
  {
    if events != [] {
      StepCalibrated(skew, w, events[0]);
      NeverStepsBack(skew, Step(skew, w, events[0]), events[1..]);
    }
  }

  /** Only the first look can restore the saved estimate; every later one, at any time and whatever storage does, finds
  the estimate the first one left. */
  lemma LookedOnce(c: Clock, now: int, storage: Storage, later: int, storage': Storage)
    ensures Looked(Looked(c, now, storage), later, storage') == Looked(c, now, storage)
  {
  }

  /** Asking for the time any number of times, without a new answer or a reload, keeps the first look's estimate. */
  lemma {:induction false} AsksAgree(skew: int, w: World, now: int, storage: Storage, asks: seq<Event>)
    requires forall i :: 0 <= i < |asks| ==> asks[i].Ask?
    ensures Run(Steps(skew), Step(skew, w, Ask(now, storage)), asks).clock == Looked(w.clock, now, storage)
    decreases |asks|
  {
    var first := Step(skew, w, Ask(now, storage));
    if asks != [] {
      var e := asks[0];
      LookedOnce(w.clock, now, storage, e.now, e.storage);
      assert Step(skew, first, e).clock == first.clock;
      AskedAgain(skew, w, now, storage, first, e);
      AsksAgree(skew, w, now, storage, asks[1..]);
    }
  }

  lemma AskedAgain(skew: int, w: World, now: int, storage: Storage, first: World, e: Event)
    requires first == Step(skew, w, Ask(now, storage)) && e.Ask?
    ensures Step(skew, first, e) == first
  {
  }

  /** Storage works, and whatever is saved is still recent enough to be restored. */
  ghost predicate Calm(w: World, e: Event) {
    e.Reload? ||
    (&& e.storage == Storage(true, true)
     && (w.clock.saved.Some? ==> Abs(e.now - w.clock.saved.value.savedAt) <= RESTORE_WITHIN_MS))
  }

  function Heard(e: Event): seq<nat> { if e.Answer? then [e.latency] else [] }

  /** Memory and storage rest on the same answers, or memory was just emptied by a reload. */
  ghost predicate InStep(skew: int, w: World) {
    Calibrated(skew, w) && (w.held == w.kept || (w.held == [] && !w.clock.restored))
  }

  lemma {:induction false} CalmStep(skew: int, w: World, e: Event)
    requires InStep(skew, w) && Calm(w, e)
    ensures InStep(skew, Step(skew, w, e))
    ensures Step(skew, w, e).kept == w.kept + Heard(e)
  {
    StepCalibrated(skew, w, e);
    if !e.Answer? { assert w.kept + [] == w.kept; }
  }

  /** Over a calm history a reload forgets nothing: storage rests on every answer ever heard. */
  lemma {:induction false} NothingForgotten(skew: int, events: seq<Event>)
    requires Allowed(Steps(skew), Calm, START, events)
    ensures Run(Steps(skew), START, events).kept == Gathered(Heard, events)
  {
    var inv := (w: World) => InStep(skew, w);
    var kept := (w: World) => w.kept;
    forall w: World, e | inv(w) && Calm(w, e)
      ensures inv(Steps(skew)(w, e)) && kept(Steps(skew)(w, e)) == kept(w) + Heard(e)
    {
      CalmStep(skew, w, e);
    }
    RunGathers(Steps(skew), Calm, inv, kept, Heard, START, events);
  }
}
