/** Runs of a step function: what a machine's state is after a sequence of events, from any state. */
module Runs {

  ghost function Run<S, E>(step: (S, E) -> S, s: S, events: seq<E>): S
    decreases |events|
  {
    if events == [] then s else Run(step, step(s, events[0]), events[1..])
  }

  lemma {:induction false} RunConcat<S, E>(step: (S, E) -> S, s: S, x: seq<E>, y: seq<E>)
    ensures Run(step, s, x + y) == Run(step, Run(step, s, x), y)
    decreases |x|
  {
    if x == [] {
      assert x + y == y;
    } else {
      assert (x + y)[1..] == x[1..] + y;
      RunConcat(step, step(s, x[0]), x[1..], y);
    }
  }

  lemma RunFirst<S, E>(step: (S, E) -> S, s: S, e: E, rest: seq<E>)
    ensures Run(step, s, [e] + rest) == Run(step, step(s, e), rest)
  {
    assert ([e] + rest)[1..] == rest;
  }

  lemma RunLast<S, E>(step: (S, E) -> S, s: S, events: seq<E>)
    requires events != []
    ensures Run(step, s, events) == step(Run(step, s, events[..|events| - 1]), events[|events| - 1])
  {
    var init, last := events[..|events| - 1], events[|events| - 1];
    assert events == init + [last];
    RunConcat(step, s, init, [last]);
    RunFirst(step, Run(step, s, init), last, []);
  }

  /** What every step keeps holds after every run. */
  lemma {:induction false} RunKeeps<S(!new), E(!new)>(step: (S, E) -> S, inv: S -> bool, s: S, events: seq<E>)
    requires inv(s) && forall s', e :: inv(s') ==> inv(step(s', e))
    ensures inv(Run(step, s, events))
    decreases |events|
  {
    if events != [] { RunKeeps(step, inv, step(s, events[0]), events[1..]); }
  }

  /** Every event of the run is allowed in the state it meets. */
  ghost predicate Allowed<S, E>(step: (S, E) -> S, ok: (S, E) -> bool, s: S, events: seq<E>)
    decreases |events|
  {
    events == [] || (ok(s, events[0]) && Allowed(step, ok, step(s, events[0]), events[1..]))
  }

  ghost function Gathered<E, T>(gives: E -> seq<T>, events: seq<E>): seq<T> {
    if events == [] then [] else gives(events[0]) + Gathered(gives, events[1..])
  }

  /** A part of the state that every allowed event extends has, after a run, all the extensions in order. */
  lemma {:induction false} RunGathers<S(!new), E(!new), T>(
      step: (S, E) -> S, ok: (S, E) -> bool, inv: S -> bool, part: S -> seq<T>, gives: E -> seq<T>, s: S, events: seq<E>)
    requires inv(s) && Allowed(step, ok, s, events)
    requires forall s', e :: inv(s') && ok(s', e) ==> inv(step(s', e)) && part(step(s', e)) == part(s') + gives(e)
    ensures inv(Run(step, s, events)) && part(Run(step, s, events)) == part(s) + Gathered(gives, events)
    decreases |events|
  {
    if events != [] { RunGathers(step, ok, inv, part, gives, step(s, events[0]), events[1..]); }
  }
}
