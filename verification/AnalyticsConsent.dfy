/** Analytics consent across tabs (apps/landing/lib/cloudflareAnalytics.ts and
apps/landing/context/CookieConsentContext.tsx). The stored choice and the withdrawal cookie are shared by all
tabs; each document has its own script and its own `revoked`. Writes may fail, and the steps of one tab's save
may fall between those of another's. */
module AnalyticsConsent {
  import opened Options
  import opened Runs

  type Tab = nat

  /** What the browser shares: the stored consent's analytics choice, and the withdrawal cookie. */
  datatype Shared = Shared(stored: Option<bool>, withdrawn: bool)

  /** The script was added to the document (and its transports are guarded); the document was revoked. */
  datatype Document = Document(script: bool, revoked: bool)

  /** Where a tab's `saveConsent` stands between two storage operations. */
  datatype Saving = Idle | Storing(analytics: bool) | Clearing(analytics: bool) | Undoing

  datatype World = World(shared: Shared, documents: map<Tab, Document>, saving: map<Tab, Saving>)

  predicate Accepted(shared: Shared, readable: bool) {
    readable && !shared.withdrawn && shared.stored == Some(true)
  }

  function Stopped(d: Document): Document { if d.script then d.(revoked := true) else d }

  /** `permitted`, as the guards call it: the document it leaves, and the answer. */
  function Permitted(d: Document, shared: Shared, readable: bool): (Document, bool) {
    var d' := if Accepted(shared, readable) then d else Stopped(d);
    (d', !d'.revoked)
  }

  /** `syncCloudflareAnalytics`; `loadable` when the token and the transports allow a script. */
  function Synced(d: Document, shared: Shared, readable: bool, loadable: bool): Document {
    if !Accepted(shared, readable) then Stopped(d)
    else if d.script || !loadable then d
    else d.(script := true)
  }

  /** Setting the cookie takes effect unless the browser refuses cookies. */
  function Remember(shared: Shared, withdrawn: bool, ok: bool): Shared {
    if ok then shared.(withdrawn := withdrawn) else shared
  }

  // ----- one tab's code -----

  class Browser {
    var stored: Option<bool>
    var withdrawn: bool

    ghost function Value(): Shared
      reads this
    {
      Shared(stored, withdrawn)
    }
  }

  /** How the storage operations of one save turn out. */
  datatype Luck = Luck(cookie: bool, store: bool, clear: bool, cookieAgain: bool, remove: bool, readable: bool, loadable: bool)

  /** A save from start to end with nothing in between: what it leaves in storage, and in its own document. */
  function SavedShared(s: Shared, analytics: bool, luck: Luck): Shared {
    var s1 := if analytics then s else Remember(s, true, luck.cookie);
    if luck.store then
      var s2 := s1.(stored := Some(analytics));
      if analytics then Remember(s2, false, luck.clear) else s2
    else
      var s2 := Remember(s1, true, luck.cookieAgain);
      if luck.remove then s2.(stored := None) else s2
  }

  function SavedDocument(d: Document, s: Shared, analytics: bool, luck: Luck): Document {
    var d1 := if analytics then d else Stopped(d);
    if luck.store then Synced(d1, SavedShared(s, analytics, luck), luck.readable, luck.loadable) else Stopped(d1)
  }

  class Page {
    var script: bool
    var revoked: bool
    const browser: Browser

    constructor (browser: Browser)
      ensures this.browser == browser && Value() == Document(false, false)
    {
      this.browser, script, revoked := browser, false, false;
    }

    ghost function Value(): Document
      reads this
    {
      Document(script, revoked)
    }

    method Stop()
      modifies this
      ensures script == old(script) && (revoked <==> old(revoked) || old(script))
      ensures Value() == Stopped(old(Value()))
    {
      if !script { return; }
      revoked := true;
    }

    method IsPermitted(readable: bool) returns (ok: bool)
      modifies this
      ensures script == old(script) && (ok <==> !revoked)
      ensures revoked <==> old(revoked) || (old(script) && !(readable && !browser.withdrawn && browser.stored == Some(true)))
      ensures (Value(), ok) == Permitted(old(Value()), browser.Value(), readable)
    {
      if !(readable && !browser.withdrawn && browser.stored == Some(true)) { Stop(); }
      ok := !revoked;
    }

    method Sync(readable: bool, loadable: bool)
      modifies this
      ensures script <==> old(script) || (loadable && readable && !browser.withdrawn && browser.stored == Some(true))
      ensures revoked <==> old(revoked) || (old(script) && !(readable && !browser.withdrawn && browser.stored == Some(true)))
      ensures Value() == Synced(old(Value()), browser.Value(), readable, loadable)
    {
      if !(readable && !browser.withdrawn && browser.stored == Some(true)) {
        Stop();
        return;
      }
      if script || !loadable { return; }
      script := true;
    }

    /** `onStorage`, then `loadConsent`. */
    method OnStorage(newValue: Option<bool>, readable: bool, loadable: bool)
      modifies this
      ensures script <==> old(script) || (loadable && readable && !browser.withdrawn && browser.stored == Some(true))
      ensures revoked <==>
                (old(revoked) ||
                 (old(script) && !(newValue == Some(true) && readable && !browser.withdrawn && browser.stored == Some(true))))
      ensures Value() ==
              Synced(if newValue == Some(true) then old(Value()) else Stopped(old(Value())), browser.Value(), readable, loadable)
    {
      if newValue != Some(true) { Stop(); }
      Sync(readable, loadable);
    }

    method SaveConsent(analytics: bool, luck: Luck)
      modifies this, browser
      ensures browser.stored == if luck.store then Some(analytics) else if luck.remove then None else old(browser.stored)
      ensures luck.store && analytics ==> (browser.withdrawn <==> old(browser.withdrawn) && !luck.clear)
      ensures luck.store && !analytics ==> (browser.withdrawn <==> old(browser.withdrawn) || luck.cookie)
      ensures !luck.store ==>
                (browser.withdrawn <==> old(browser.withdrawn) || luck.cookieAgain || (!analytics && luck.cookie))
      ensures script <==> old(script) || (luck.store && analytics && !browser.withdrawn && luck.readable && luck.loadable)
      ensures revoked <==>
                (old(revoked) || (old(script) && !(luck.store && analytics && !browser.withdrawn && luck.readable)))
      ensures browser.Value() == SavedShared(old(browser.Value()), analytics, luck)
      ensures Value() == SavedDocument(old(Value()), old(browser.Value()), analytics, luck)
    {
      if !analytics {
        Stop();
        if luck.cookie { browser.withdrawn := true; }
      }
      if luck.store {
        browser.stored := Some(analytics);
        if analytics && luck.clear { browser.withdrawn := false; }
      } else {
        Stop();
        if luck.cookieAgain { browser.withdrawn := true; }
        if luck.remove { browser.stored := None; }
        return;
      }
      Sync(luck.readable, luck.loadable);
    }
  }

  /** A withdrawal takes effect exactly when any one of its writes does. */
  lemma WithdrawalTakesEffect(s: Shared, luck: Luck)
    ensures Accepted(SavedShared(s, false, luck), true) <==>
            Accepted(s, true) && !luck.store && !luck.cookie && !luck.cookieAgain && !luck.remove
  {
  }

  /** An acceptance counts exactly when it is stored and no withdrawal mark is left. */
  lemma AcceptanceTakesEffect(s: Shared, luck: Luck)
    ensures luck.store ==> (Accepted(SavedShared(s, true, luck), true) <==> luck.clear || !s.withdrawn)
    ensures !luck.store && (luck.cookieAgain || luck.remove) ==> !Accepted(SavedShared(s, true, luck), true)
  {
  }

  // ----- many tabs -----

  datatype Event =
    | Open(tab: Tab, readable: bool, loadable: bool)                         // a document loads
    | Shut(tab: Tab)                                                         // the document ends
    | Deliver(tab: Tab, newValue: Option<bool>, readable: bool, loadable: bool)  // a storage event arrives
    | Choose(tab: Tab, analytics: bool, cookie: bool)                        // saveConsent up to setItem
    | Store(tab: Tab, ok: bool)                                              // setItem
    | Clear(tab: Tab, cookie: bool, readable: bool, loadable: bool)          // the rest of a successful save
    | Undo(tab: Tab, cookie: bool, remove: bool)                             // the rest of a failed one
    | Send(tab: Tab, readable: bool)                                         // the script tries to send

  predicate Live(w: World, t: Tab) { t in w.documents && t in w.saving }

  function WithDocument(w: World, t: Tab, d: Document): World { w.(documents := w.documents[t := d]) }

  function Step(w: World, e: Event): World {
    match e
    case Open(t, readable, loadable) =>
      if t in w.documents then w
      else World(w.shared, w.documents[t := Synced(Document(false, false), w.shared, readable, loadable)], w.saving[t := Idle])
    case Shut(t) => World(w.shared, w.documents - {t}, w.saving - {t})
    case Deliver(t, value, readable, loadable) =>
      if !Live(w, t) then w
      else WithDocument(w, t, Synced(if value == Some(true) then w.documents[t] else Stopped(w.documents[t]), w.shared, readable, loadable))
    case Choose(t, analytics, cookie) =>
      if !Live(w, t) || w.saving[t] != Idle then w
      else if analytics then w.(saving := w.saving[t := Storing(true)])
      else World(Remember(w.shared, true, cookie), w.documents[t := Stopped(w.documents[t])], w.saving[t := Storing(false)])
    case Store(t, ok) =>
      if !Live(w, t) || !w.saving[t].Storing? then w
      else if ok then w.(shared := w.shared.(stored := Some(w.saving[t].analytics)), saving := w.saving[t := Clearing(w.saving[t].analytics)])
      else w.(saving := w.saving[t := Undoing])
    case Clear(t, cookie, readable, loadable) =>
      if !Live(w, t) || !w.saving[t].Clearing? then w
      else
        var shared := if w.saving[t].analytics then Remember(w.shared, false, cookie) else w.shared;
        World(shared, w.documents[t := Synced(w.documents[t], shared, readable, loadable)], w.saving[t := Idle])
    case Undo(t, cookie, remove) =>
      if !Live(w, t) || w.saving[t] != Undoing then w
      else
        var shared := Remember(w.shared, true, cookie);
        World(if remove then shared.(stored := None) else shared, w.documents[t := Stopped(w.documents[t])], w.saving[t := Idle])
    case Send(t, readable) =>
      if !Live(w, t) || !w.documents[t].script then w
      else WithDocument(w, t, Permitted(w.documents[t], w.shared, readable).0)
  }

  /** Run without anything in between, the steps of a save do what the whole save does. */
  lemma SaveIsItsSteps(w: World, t: Tab, analytics: bool, luck: Luck)
    requires Live(w, t) && w.saving[t] == Idle
    ensures var stored := Step(Step(w, Choose(t, analytics, luck.cookie)), Store(t, luck.store));
            var after := if luck.store then Step(stored, Clear(t, luck.clear, luck.readable, luck.loadable))
                         else Step(stored, Undo(t, luck.cookieAgain, luck.remove));
            && after.shared == SavedShared(w.shared, analytics, luck)
            && Live(after, t) && after.documents[t] == SavedDocument(w.documents[t], w.shared, analytics, luck)
            && after.saving[t] == Idle
  {
  }

  /** The request goes out. */
  predicate Passes(w: World, e: Event) {
    e.Send? && Live(w, e.tab) && w.documents[e.tab].script && Permitted(w.documents[e.tab], w.shared, e.readable).1
  }

  /** A request passes exactly while the stored choice accepts, no withdrawal is marked and the document was
      not revoked; a refusal revokes the document. */
  lemma PassesExactly(w: World, t: Tab, readable: bool)
    requires Live(w, t) && w.documents[t].script
    ensures Passes(w, Send(t, readable)) <==> Accepted(w.shared, readable) && !w.documents[t].revoked
    ensures !Passes(w, Send(t, readable)) ==> Step(w, Send(t, readable)).documents[t].revoked
  {
  }

  /** A document that loads has the script exactly on acceptance; one that sees a withdrawal, or no acceptance, in a
  storage event is revoked if it has the script, and otherwise loads it exactly on acceptance. */
  lemma EventsReachDocuments(w: World, t: Tab, value: Option<bool>, readable: bool, loadable: bool)
    requires t in w.saving ==> t in w.documents
    ensures var loaded := Step(w, Open(t, readable, loadable));
            t !in w.documents ==>
              Live(loaded, t) && loaded.documents[t] == Document(loadable && Accepted(w.shared, readable), false)
    ensures var seen := Step(w, Deliver(t, value, readable, loadable));
            Live(w, t) ==>
              && Live(seen, t) && seen.shared == w.shared
              && (seen.documents[t].revoked <==>
                   w.documents[t].revoked
                   || (w.documents[t].script && !(value == Some(true) && Accepted(w.shared, readable))))
              && (seen.documents[t].script <==> w.documents[t].script || (loadable && Accepted(w.shared, readable)))
  {
  }

  predicate Revoked(w: World, t: Tab) { Live(w, t) && w.documents[t].script && w.documents[t].revoked }

  /** A revoked document stays revoked until it ends, whatever any tab does, and sends nothing. */
  lemma {:induction false} RevokedStays(w: World, t: Tab, events: seq<Event>, readable: bool)
    requires Revoked(w, t) && forall i :: 0 <= i < |events| ==> events[i] != Shut(t)
    ensures Revoked(Run(Step, w, events), t)
    ensures !Passes(Run(Step, w, events), Send(t, readable))
    decreases |events|
  {
    if events != [] {
      assert events[0] != Shut(t);
      RevokedStays(Step(w, events[0]), t, events[1..], readable);
    }
  }

  /** The two steps of an accepting save that can let analytics on again. */
  predicate StoresAcceptance(w: World, e: Event) {
    e.Store? && e.ok && Live(w, e.tab) && w.saving[e.tab] == Storing(true)
  }

  predicate ClearsMark(w: World, e: Event) {
    e.Clear? && e.cookie && Live(w, e.tab) && w.saving[e.tab] == Clearing(true)
  }

  function NotStoring(): (World, Event) -> bool { (w, e) => !StoresAcceptance(w, e) }
  function NotClearing(): (World, Event) -> bool { (w, e) => !ClearsMark(w, e) }

  /** Once the stored choice does not accept, no tab sends until an acceptance is stored successfully. */
  lemma {:induction false} StoredWithdrawalHolds(w: World, events: seq<Event>, send: Event)
    requires w.shared.stored != Some(true) && Allowed(Step, NotStoring(), w, events)
    ensures Run(Step, w, events).shared.stored != Some(true) && !Passes(Run(Step, w, events), send)
    decreases |events|
  {
    if events != [] {
      assert NotStoring()(w, events[0]);
      StoredWithdrawalHolds(Step(w, events[0]), events[1..], send);
    }
  }

  /** Once the withdrawal is marked, no tab sends until a save that stored an acceptance clears the mark. */
  lemma {:induction false} MarkedWithdrawalHolds(w: World, events: seq<Event>, send: Event)
    requires w.shared.withdrawn && Allowed(Step, NotClearing(), w, events)
    ensures Run(Step, w, events).shared.withdrawn && !Passes(Run(Step, w, events), send)
    decreases |events|
  {
    if events != [] {
      assert NotClearing()(w, events[0]);
      MarkedWithdrawalHolds(Step(w, events[0]), events[1..], send);
    }
  }
}
