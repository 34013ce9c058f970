/** Runs of a state machine: events applied one after another, each of which must be possible. */
module Runs {
  import opened Common

  function Run<S, E>(apply: (S, E) -> Option<S>, s: S, es: seq<E>): Option<S>
    decreases |es|
  {
    if es == [] then Some(s)
    else
      var next := apply(s, es[0]);
      if next.None? then None else Run(apply, next.value, es[1..])
  }

  lemma {:induction false} RunSnoc<S, E>(apply: (S, E) -> Option<S>, s: S, es: seq<E>, e: E)
    requires Run(apply, s, es).Some?
    ensures Run(apply, s, es + [e]) == apply(Run(apply, s, es).value, e)
    decreases |es|
  {
    if es == [] {
      assert es + [e] == [e];
    } else {
      assert (es + [e])[1..] == es[1..] + [e];
      RunSnoc(apply, apply(s, es[0]).value, es[1..], e);
    }
  }

  /** A run is a shorter run and one event more. */
  lemma {:induction false} RunFront<S, E>(apply: (S, E) -> Option<S>, s: S, es: seq<E>)
    requires es != [] && Run(apply, s, es).Some?
    ensures var front := Run(apply, s, es[..|es| - 1]);
            front.Some? && apply(front.value, es[|es| - 1]) == Run(apply, s, es)
  {
    var front := es[..|es| - 1];
    if front != [] {
      RunFront(apply, apply(s, es[0]).value, es[1..]);
      assert es[1..][..|es| - 2] == front[1..];
    }
  }

  /** What every single step keeps, every run keeps. */
  lemma {:induction false} RunKeeps<S(!new), E(!new)>(apply: (S, E) -> Option<S>, inv: S -> bool, s: S, es: seq<E>)
    requires forall t, e | inv(t) && apply(t, e).Some? :: inv(apply(t, e).value)
    requires inv(s) && Run(apply, s, es).Some?
    ensures inv(Run(apply, s, es).value)
    decreases |es|
  {
    if es != [] {
      RunKeeps(apply, inv, apply(s, es[0]).value, es[1..]);
    }
  }
}
