/** Properties carried along finite runs of any machine. */
module Runs {

  /** What a step carries from a state to the next, while `ok` holds, is carried along a stretch of a run. */
  lemma {:induction false} Along<S(!new)>(next: (S, nat, S) -> bool, ok: S -> bool, carried: S -> bool,
                                          run: seq<S>, acts: seq<nat>, b: nat, m: nat)
    requires |run| == |acts| + 1 && b <= m < |run|
    requires forall i :: b <= i < m ==> next(run[i], acts[i], run[i + 1])
    requires forall i :: b <= i <= m ==> ok(run[i])
    requires forall s, t, s' :: next(s, t, s') && ok(s) && ok(s') && carried(s) ==> carried(s')
    requires carried(run[b])
    ensures carried(run[m])
    decreases m
  {
    if b < m {
      Along(next, ok, carried, run, acts, b, m - 1);
      assert next(run[m - 1], acts[m - 1], run[m - 1 + 1]);
    }
  }
}
