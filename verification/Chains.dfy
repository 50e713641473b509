/** Runs of any system as chains of steps. */
module Chains {

  /** Each state is related to the next by the action between them. */
  ghost predicate Chain<S(!new), M(!new)>(rel: (S, M, S) -> bool, run: seq<S>, moves: seq<M>) {
    |run| == |moves| + 1 && forall k :: 0 <= k < |moves| ==> rel(run[k], moves[k], run[k + 1])
  }

  lemma ChainLonger<S(!new), M(!new)>(rel: (S, M, S) -> bool, run: seq<S>, moves: seq<M>, m: M, t: S)
    requires Chain(rel, run, moves) && rel(run[|moves|], m, t)
    ensures Chain(rel, run + [t], moves + [m])
  {
    var r, b := run + [t], moves + [m];
    forall k | 0 <= k < |b| ensures rel(r[k], b[k], r[k + 1]) {
      if k < |moves| { assert r[k] == run[k] && b[k] == moves[k] && r[k + 1] == run[k + 1]; }
    }
  }

  ghost predicate Leads<S(!new), M(!new)>(rel: (S, M, S) -> bool, first: S, run: seq<S>, moves: seq<M>, last: S) {
    Chain(rel, run, moves) && run[0] == first && run[|moves|] == last
  }

  /** Some chain of steps leads from the first state to the last. */
  ghost predicate Reaches<S(!new), M(!new)>(rel: (S, M, S) -> bool, first: S, last: S) {
    exists run, moves: seq<M> :: Leads(rel, first, run, moves, last)
  }

  lemma ReachesNext<S(!new), M(!new)>(rel: (S, M, S) -> bool, first: S, s: S, m: M, t: S)
    requires Reaches(rel, first, s) && rel(s, m, t)
    ensures Reaches(rel, first, t)
  {
    var run, moves: seq<M> :| Leads(rel, first, run, moves, s);
    ChainLonger(rel, run, moves, m, t);
    assert Leads(rel, first, run + [t], moves + [m], t);
  }

  lemma ReachesItself<S(!new), M(!new)>(rel: (S, M, S) -> bool, s: S)
    ensures Reaches(rel, s, s)
  {
    var none: seq<M> := [];
    assert Leads(rel, s, [s], none, s);
  }
}
