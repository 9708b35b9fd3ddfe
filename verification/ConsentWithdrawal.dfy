/** Exactly when a withdrawal of analytics consent holds across tabs (apps/landing/context/CookieConsentContext.tsx). */
module ConsentWithdrawal {
  import opened Options
  import opened Runs
  import opened AnalyticsConsent

  /** A tab that stored an acceptance is about to clear the withdrawal mark. */
  ghost predicate ClearingAhead(w: World) { exists t :: Live(w, t) && w.saving[t] == Clearing(true) }

  /** No run in which no acceptance is stored lets any tab send. */
  ghost predicate Silent(w: World) {
    forall events, send :: Allowed(Step, NotStoring(), w, events) ==> !Passes(Run(Step, w, events), send)
  }

  /** The stored choice does not accept, or the withdrawal is marked and no save in progress is about to clear it. */
  ghost predicate Withdrawn(w: World) {
    w.shared.stored != Some(true) || (w.shared.withdrawn && !ClearingAhead(w))
  }

  lemma {:induction false} WithdrawnStep(w: World, e: Event)
    requires Withdrawn(w) && !StoresAcceptance(w, e)
    ensures Withdrawn(Step(w, e))
  {
    var w' := Step(w, e);
    if w'.shared.stored == Some(true) {
      forall t | Live(w', t) ensures w'.saving[t] != Clearing(true) {
        assert Live(w, t) || w'.saving[t] == Idle;
      }
    }
  }

  lemma {:induction false} WithdrawnRun(w: World, events: seq<Event>, send: Event)
    requires Withdrawn(w) && Allowed(Step, NotStoring(), w, events)
    ensures !Passes(Run(Step, w, events), send)
    decreases |events|
  {
    if events != [] {
      assert NotStoring()(w, events[0]);
      WithdrawnStep(w, events[0]);
      WithdrawnRun(Step(w, events[0]), events[1..], send);
    }
  }

  lemma {:induction false} FreshTab(s: set<Tab>) returns (t: Tab)
    ensures forall u :: u in s ==> u < t
    decreases |s|
  {
    t := 0;
    if s != {} {
      var u :| u in s;
      var v := FreshTab(s - {u});
      t := if u < v then v else u + 1;
      forall x | x in s ensures x < t { assert x == u || x in s - {u}; }
    }
  }

  /** Accepted, and not marked, a new document sends at once. */
  lemma {:induction false} NewTabSends(w: World, t: Tab)
    requires w.shared == Shared(Some(true), false) && t !in w.documents
    ensures Allowed(Step, NotStoring(), w, [Open(t, true, true)])
    ensures Passes(Run(Step, w, [Open(t, true, true)]), Send(t, true))
  {
    RunFirst(Step, w, Open(t, true, true), []);
    assert [Open(t, true, true)][1..] == [];
    assert NotStoring()(w, Open(t, true, true));
  }

  lemma {:induction false} NotWithdrawnSends(w: World) returns (events: seq<Event>, send: Event)
    requires !Withdrawn(w)
    ensures Allowed(Step, NotStoring(), w, events) && Passes(Run(Step, w, events), send)
  {
    var t := FreshTab(w.documents.Keys);
    send := Send(t, true);
    if !w.shared.withdrawn {
      events := [Open(t, true, true)];
      NewTabSends(w, t);
    } else {
      var a :| Live(w, a) && w.saving[a] == Clearing(true);
      var clear := Clear(a, true, true, true);
      var w1 := Step(w, clear);
      events := [clear] + [Open(t, true, true)];
      NewTabSends(w1, t);
      RunFirst(Step, w, clear, [Open(t, true, true)]);
      assert events[1..] == [Open(t, true, true)];
      assert NotStoring()(w, clear);
    }
  }

  /** After any point no tab sends until a later acceptance is stored, if and only if the stored choice does not accept
  there, or the withdrawal is marked and no save that stored its acceptance before is still to clear the mark. */
  lemma {:induction false} WithdrawalHoldsExactly(w: World)
    ensures Silent(w) <==> Withdrawn(w)
  {
    if Withdrawn(w) {
      forall events, send | Allowed(Step, NotStoring(), w, events) ensures !Passes(Run(Step, w, events), send) {
        WithdrawnRun(w, events, send);
      }
    } else {
      var events, send := NotWithdrawnSends(w);
    }
  }

  /** A save by one tab, with nothing in between. */
  function AfterSave(w: World, t: Tab, analytics: bool, luck: Luck): World {
    var stored := Step(Step(w, Choose(t, analytics, luck.cookie)), Store(t, luck.store));
    if luck.store then Step(stored, Clear(t, luck.clear, luck.readable, luck.loadable))
    else Step(stored, Undo(t, luck.cookieAgain, luck.remove))
  }

  /** A withdrawal saved in one go keeps every tab silent until a later acceptance is stored, if and only if it changed
  the stored choice (or that did not accept before), or it is marked and no other tab's save is still to clear marks. */
  lemma {:induction false} WithdrawalSilences(w: World, t: Tab, luck: Luck)
    requires Live(w, t) && w.saving[t] == Idle
    ensures Silent(AfterSave(w, t, false, luck)) <==>
            || luck.store || luck.remove || w.shared.stored != Some(true)
            || ((luck.cookie || luck.cookieAgain || w.shared.withdrawn) && !ClearingAhead(w))
  {
    var after := AfterSave(w, t, false, luck);
    WithdrawalHoldsExactly(after);
    SaveIsItsSteps(w, t, false, luck);
    if a :| Live(w, a) && w.saving[a] == Clearing(true) { assert Live(after, a) && after.saving[a] == Clearing(true); }
    if a :| Live(after, a) && after.saving[a] == Clearing(true) { assert Live(w, a) && w.saving[a] == Clearing(true); }
  }

  const START := World(Shared(None, false), map[], map[])

  /** Two tabs open; the first stores an acceptance, and before it clears the mark the second withdraws. */
  function CrossedRun(a: Tab, b: Tab): seq<Event> {
    [Open(a, true, false)] + ([Open(b, true, false)] + ([Choose(a, true, true)] + [Store(a, true)]))
  }

  lemma {:induction false} CrossedReached(a: Tab, b: Tab)
    requires a != b
    ensures Run(Step, START, CrossedRun(a, b)) ==
            World(Shared(Some(true), false), map[a := Document(false, false), b := Document(false, false)],
                  map[a := Clearing(true), b := Idle])
  {
    var s1 := Step(START, Open(a, true, false));
    var s2 := Step(s1, Open(b, true, false));
    var s3 := Step(s2, Choose(a, true, true));
    RunFirst(Step, START, Open(a, true, false), [Open(b, true, false)] + ([Choose(a, true, true)] + [Store(a, true)]));
    RunFirst(Step, s1, Open(b, true, false), [Choose(a, true, true)] + [Store(a, true)]);
    RunFirst(Step, s2, Choose(a, true, true), [Store(a, true)]);
    RunFirst(Step, s3, Store(a, true), []);
  }

  /** Saves may cross: from an empty browser, a withdrawal that falls between the two halves of an acceptance holds
  exactly when one of its own writes to the stored choice went through, whatever its marks did. */
  lemma {:induction false} CrossedSaves(a: Tab, b: Tab, luck: Luck)
    requires a != b
    ensures Silent(AfterSave(Run(Step, START, CrossedRun(a, b)), b, false, luck)) <==> luck.store || luck.remove
  {
    CrossedReached(a, b);
    var w := Run(Step, START, CrossedRun(a, b));
    assert Live(w, a) && w.saving[a] == Clearing(true);
    WithdrawalSilences(w, b, luck);
  }
}
