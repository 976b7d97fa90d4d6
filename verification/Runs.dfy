/** A run: any sequence of events, applied one after another. */
module Runs {
  function Run<S, E>(step: (S, E) -> S, s: S, events: seq<E>): S
    decreases |events|
  {
    if events == [] then s else Run(step, step(s, events[0]), events[1..])
  }

  lemma {:induction false} Concat<S, E>(step: (S, E) -> S, s: S, before: seq<E>, after: seq<E>)
    ensures Run(step, s, before + after) == Run(step, Run(step, s, before), after)
    decreases |before|
  {
    if before == [] {
      assert before + after == after;
    } else {
      assert (before + after)[1..] == before[1..] + after;
      Concat(step, step(s, before[0]), before[1..], after);
    }
  }

  lemma Unrolled<S, E>(step: (S, E) -> S, s: S, e: E, rest: seq<E>)
    ensures Run(step, s, [e] + rest) == Run(step, step(s, e), rest)
  {
    assert ([e] + rest)[1..] == rest;
  }

  lemma Unrolled2<S, E>(step: (S, E) -> S, s: S, a: E, b: E, rest: seq<E>)
    ensures Run(step, s, [a, b] + rest) == Run(step, step(step(s, a), b), rest)
  {
    assert [a, b] + rest == [a] + ([b] + rest);
    Unrolled(step, s, a, [b] + rest);
    Unrolled(step, step(s, a), b, rest);
  }
}
