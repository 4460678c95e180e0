/** Small definitions shared by the models: an optional value and sums over sequences. */
module Prelude {

  datatype Option<+T> = None | Some(value: T)

  function Sum(s: seq<int>): int {
    if s == [] then 0 else s[0] + Sum(s[1..])
  }

  lemma {:induction false} Distributive(x: int, a: int, b: int)
    ensures x * (a + b) == x * a + x * b
  {
  }

  lemma {:induction false} SumBounds(s: seq<int>, low: int)
    requires forall i :: 0 <= i < |s| ==> low <= s[i]
    ensures low * |s| <= Sum(s)
  {
    if s != [] {
      SumBounds(s[1..], low);
      Distributive(low, 1, |s[1..]|);
    }
  }

  /** The state of a machine after a sequence of events. */
  function After<S, E>(step: (S, E) -> S, s: S, events: seq<E>): S {
    if events == [] then s
    else step(After(step, s, events[..|events| - 1]), events[|events| - 1])
  }

  /** A run may be cut anywhere. */
  lemma {:induction false} AfterConcat<S, E>(step: (S, E) -> S, s: S, events: seq<E>, more: seq<E>)
    ensures After(step, s, events + more) == After(step, After(step, s, events), more)
  {
    if more == [] {
      assert events + more == events;
    } else {
      var n := |more| - 1;
      AfterConcat(step, s, events, more[..n]);
      assert (events + more)[..|events + more| - 1] == events + more[..n];
    }
  }
}
