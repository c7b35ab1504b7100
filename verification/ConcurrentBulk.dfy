/**
 Bulk visits of the concurrent table among other threads. Each key is a visit of its own, begun when its home group is
 matched and, after all other matches, carried on under group locks: a lookup that waits long between its first match
 and its first lock. So each key is a thread of the model, and a bulk visit any family of such visits in a span of time.
 */
module ConcurrentBulk {
  import opened SizePolicy
  import opened Keys
  import opened Probing
  import opened ConcurrentTable
  import opened ConcurrentRuns
  import opened ConcurrentEffects
  import opened ConcurrentOperations

  /** The visit of one key, by thread `t` from state `b` to state `m`. */
  datatype KeyVisit = KeyVisit(t: nat, b: nat, m: nat)

  ghost predicate IsKeyVisit<K>(run: seq<State<K>>, from: nat, to: nat, v: KeyVisit) {
    from <= v.b && v.m <= to && Operation(run, v.t, v.b, v.m) && run[v.b].threads[v.t].op.Visit?
  }

  /** All visits lie between the states `from` and `to`. */
  ghost predicate IsBulkVisit<K>(run: seq<State<K>>, from: nat, to: nat, vs: seq<KeyVisit>) {
    to < |run| && forall i :: 0 <= i < |vs| ==> IsKeyVisit(run, from, to, vs[i])
  }

  ghost function KeyOf<K>(run: seq<State<K>>, v: KeyVisit): K
    requires v.b < |run| && v.t < |run[v.b].threads|
  {
    run[v.b].threads[v.t].key
  }

  /** What a bulk visit returns: how often it called the visitor. */
  ghost function Calls<K>(run: seq<State<K>>, from: nat, to: nat, vs: seq<KeyVisit>): int
    requires IsBulkVisit(run, from, to, vs)
  {
    if vs == [] then 0
    else
      var v := vs[|vs| - 1];
      assert IsKeyVisit(run, from, to, v);
      Calls(run, from, to, vs[..|vs| - 1]) + run[v.m].threads[v.t].pc.result
  }

  /** The key is present, or absent, in all states from `from` to `to`. */
  ghost predicate Steady<K>(p: KeyPolicy<K>, run: seq<State<K>>, from: nat, to: nat, k: K)
    requires from <= to < |run|
  {
    forall j :: from <= j <= to ==> Present(p, run[j], k) == Present(p, run[from], k)
  }

  /** The number of keys present in state `from`. */
  ghost function PresentKeys<K>(p: KeyPolicy<K>, run: seq<State<K>>, from: nat, to: nat, vs: seq<KeyVisit>): int
    requires from < |run| && IsBulkVisit(run, from, to, vs)
  {
    if vs == [] then 0
    else
      var v := vs[|vs| - 1];
      assert IsKeyVisit(run, from, to, v);
      PresentKeys(p, run, from, to, vs[..|vs| - 1]) + if Present(p, run[from], KeyOf(run, v)) then 1 else 0
  }

  /** Each key visited was met while present, and the visitor called, or was absent at some moment; nothing changes. */
  lemma KeyIsAnswered<K(!new)>(p: KeyPolicy<K>, geo: Geometry, run: seq<State<K>>, acts: seq<nat>,
                               from: nat, to: nat, v: KeyVisit)
    requires Lawful(p) && IsRun(p, geo, run, acts) && to < |run| && IsKeyVisit(run, from, to, v)
    ensures var r, k := run[v.m].threads[v.t].pc.result, KeyOf(run, v);
            || (r == 1 && SomeHit(p, run, acts, v.t, k, from, to))
            || (r == 0 && SomeAbsent(p, run, k, from, to))
    ensures QuietBut(p, run, acts, v.t, v.b, v.m, -1)
  {
    OperationIsAtomic(p, geo, run, acts, v.t, v.b, v.m);
  }

  /** A key nobody adds or removes meanwhile is visited exactly when it is there. */
  lemma SteadyKeyIsVisited<K(!new)>(p: KeyPolicy<K>, geo: Geometry, run: seq<State<K>>, acts: seq<nat>,
                                    from: nat, to: nat, v: KeyVisit)
    requires Lawful(p) && IsRun(p, geo, run, acts) && from <= to < |run| && IsKeyVisit(run, from, to, v)
    requires Steady(p, run, from, to, KeyOf(run, v))
    ensures run[v.m].threads[v.t].pc.result == if Present(p, run[from], KeyOf(run, v)) then 1 else 0
  {
    var k := KeyOf(run, v);
    KeyIsAnswered(p, geo, run, acts, from, to, v);
    if run[v.m].threads[v.t].pc.result == 1 {
      var j :| from <= j < to && Hit(p, run, acts, v.t, k, j);
      assert Present(p, run[j], k);
    } else {
      var j :| from <= j <= to && !Present(p, run[j], k);
    }
  }

  /** Whatever other threads do with other keys, a bulk visit calls the visitor once for each key present. */
  lemma {:induction false} BulkVisitCounts<K(!new)>(p: KeyPolicy<K>, geo: Geometry, run: seq<State<K>>, acts: seq<nat>,
                                                    from: nat, to: nat, vs: seq<KeyVisit>)
    requires Lawful(p) && IsRun(p, geo, run, acts) && from <= to && IsBulkVisit(run, from, to, vs)
    requires forall i :: 0 <= i < |vs| ==> IsKeyVisit(run, from, to, vs[i]) && Steady(p, run, from, to, KeyOf(run, vs[i]))
    ensures Calls(run, from, to, vs) == PresentKeys(p, run, from, to, vs)
  {
    if vs != [] {
      assert IsKeyVisit(run, from, to, vs[|vs| - 1]);
      SteadyKeyIsVisited(p, geo, run, acts, from, to, vs[|vs| - 1]);
      BulkVisitCounts(p, geo, run, acts, from, to, vs[..|vs| - 1]);
    }
  }
}
