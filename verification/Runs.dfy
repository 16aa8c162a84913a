/** Runs of a transition system given by its step relation. */
module Runs {

  ghost predicate Run<S(!new), A>(next: (S, A, S) -> bool, s: S, acts: seq<A>, t: S)
    decreases |acts|
  {
    if acts == [] then s == t
    else exists m :: next(s, acts[0], m) && Run(next, m, acts[1..], t)
  }

  ghost predicate Reachable<S(!new), A(!new)>(init: S -> bool, next: (S, A, S) -> bool, s: S)
  {
    exists s0, acts :: init(s0) && Run(next, s0, acts, s)
  }

  /** What holds at the start and is kept by every step holds throughout. */
  lemma {:induction false} InvariantRun<S(!new), A(!new)>(next: (S, A, S) -> bool, inv: S -> bool,
      s: S, acts: seq<A>, t: S)
    requires Run(next, s, acts, t) && inv(s)
    requires forall x, a, y :: inv(x) && next(x, a, y) ==> inv(y)
    ensures inv(t)
    decreases |acts|
  {
    if acts != [] {
      var m :| next(s, acts[0], m) && Run(next, m, acts[1..], t);
      InvariantRun(next, inv, m, acts[1..], t);
    }
  }

  lemma InvariantReachable<S(!new), A(!new)>(init: S -> bool, next: (S, A, S) -> bool, inv: S -> bool, s: S)
    requires Reachable(init, next, s)
    requires forall x :: init(x) ==> inv(x)
    requires forall x, a, y :: inv(x) && next(x, a, y) ==> inv(y)
    ensures inv(s)
  {
    var s0, acts :| init(s0) && Run(next, s0, acts, s);
    InvariantRun(next, inv, s0, acts, s);
  }

  lemma {:induction false} RunSnoc<S(!new), A>(next: (S, A, S) -> bool, s: S, acts: seq<A>, t: S, a: A, u: S)
    requires Run(next, s, acts, t) && next(t, a, u)
    ensures Run(next, s, acts + [a], u)
    decreases |acts|
  {
    if acts == [] {
      assert (acts + [a])[1..] == [];
      assert Run(next, u, [], u);
    } else {
      var m :| next(s, acts[0], m) && Run(next, m, acts[1..], t);
      RunSnoc(next, m, acts[1..], t, a, u);
      assert (acts + [a])[1..] == acts[1..] + [a];
    }
  }

  lemma ReachStart<S(!new), A(!new)>(init: S -> bool, next: (S, A, S) -> bool, s: S)
    requires init(s)
    ensures Reachable(init, next, s)
  {
    var acts: seq<A> := [];
    assert Run(next, s, acts, s);
  }

  lemma ReachStep<S(!new), A(!new)>(init: S -> bool, next: (S, A, S) -> bool, s: S, a: A, t: S)
    requires Reachable(init, next, s) && next(s, a, t)
    ensures Reachable(init, next, t)
  {
    var s0, acts :| init(s0) && Run(next, s0, acts, s);
    RunSnoc(next, s0, acts, s, a, t);
  }

  lemma {:induction false} ReachRun<S(!new), A(!new)>(init: S -> bool, next: (S, A, S) -> bool,
      s: S, acts: seq<A>, t: S)
    requires Reachable(init, next, s) && Run(next, s, acts, t)
    ensures Reachable(init, next, t)
    decreases |acts|
  {
    if acts != [] {
      var m :| next(s, acts[0], m) && Run(next, m, acts[1..], t);
      ReachStep(init, next, s, acts[0], m);
      ReachRun(init, next, m, acts[1..], t);
    }
  }
}
