/** Runs of a transition system, whatever its states and actions are. */
module Runs {
  // r relates x and y by a non-empty run exactly when the first step can be taken and r relates the rest.
  ghost predicate Unfolds<S(!new), A>(r: (S, seq<A>, S) -> bool, can: (S, A) -> bool, next: (S, A) -> S,
                                      x: S, acts: seq<A>, y: S)
  {
    acts != [] ==> (r(x, acts, y) <==> can(x, acts[0]) && r(next(x, acts[0]), acts[1..], y))
  }

  ghost predicate AreRuns<S(!new), A(!new)>(r: (S, seq<A>, S) -> bool, can: (S, A) -> bool, next: (S, A) -> S) {
    && (forall x, y :: r(x, [], y) <==> x == y)
    && (forall x, acts, y :: Unfolds(r, can, next, x, acts, y))
  }

  /** A run followed by a run is a run. */
  lemma {:induction false} Compose<S(!new), A(!new)>(r: (S, seq<A>, S) -> bool, can: (S, A) -> bool, next: (S, A) -> S,
                                                    s: S, a1: seq<A>, m: S, a2: seq<A>, t: S)
    requires AreRuns(r, can, next) && r(s, a1, m) && r(m, a2, t)
    ensures r(s, a1 + a2, t)
    decreases |a1|
  {
    if a1 == [] {
      assert a1 + a2 == a2;
    } else {
      var acts := a1 + a2;
      assert Unfolds(r, can, next, s, a1, m);
      Compose(r, can, next, next(s, a1[0]), a1[1..], m, a2, t);
      assert acts[0] == a1[0] && acts[1..] == a1[1..] + a2;
      assert Unfolds(r, can, next, s, acts, t);
    }
  }
}
