/**
 The two views of the table meet between concurrent phases: the sequential arrays are a quiescent concurrent state, and
 whenever all threads are done a concurrent state is a valid sequential table, on which a rehash may run.
 */
module ConcurrentHandover {
  import opened SizePolicy
  import opened Keys
  import opened Probing
  import opened Counting
  import opened Wrappers
  import opened ConcurrentTable
  import opened ConcurrentSteps
  import opened ConcurrentSafety
  import opened ConcurrentUniqueness
  import opened ConcurrentSizes
  import opened ConcurrentRuns
  import T = TableLayout

  /** The same policy for a sequential table whose elements are their own keys. */
  function Sequential<K>(p: KeyPolicy<K>): T.Policy<K, K> {
    T.Policy(p, k => k)
  }

  // ----- From arrays to a state -----

  function SlotFor<K>(es: seq<Option<K>>, x: nat): Slot<K>
    requires x < |es|
  {
    if es[x].Some? then Live(es[x].value, -1) else if x == |es| - 1 then Sentinel else Free
  }

  /** The concurrent state that the arrays, the insertion counters and the maximum load make up. */
  ghost function StateOf<K>(gs: seq<T.Group>, es: seq<Option<K>>, cnt: seq<nat>, ml: int, threads: seq<Thread<K>>)
    : State<K>
  {
    State(seq(|es|, x requires 0 <= x < |es| => SlotFor(es, x)),
          T.Overs(gs), cnt, ml, |T.Used(es)|, threads)
  }

  ghost predicate Idle<K>(threads: seq<Thread<K>>) {
    AllDone(threads) && forall t :: 0 <= t < |threads| ==> (threads[t].op.Erase? ==> threads[t].excl)
  }

  lemma {:induction false} UsedAreLive<K>(slots: seq<Slot<K>>, es: seq<Option<K>>)
    requires |slots| == |es| && forall x :: 0 <= x < |es| ==> slots[x].Live? == es[x].Some?
    ensures Total(slots, LiveWeight) == |T.Used(es)|
  {
    if es == [] {
      assert T.Used(es) == {};
    } else {
      var n := |es| - 1;
      UsedAreLive(slots[..n], es[..n]);
      assert T.Used(es) == T.Used(es[..n]) + if es[n].Some? then {n} else {};
    }
  }

  lemma SentinelIsEmpty<K>(q: T.Policy<K, K>, geo: Geometry, gs: seq<T.Group>, es: seq<Option<K>>)
    requires T.Placed(q, geo, gs, es) && T.SentinelLast(gs)
    ensures |es| > 0 && es[|es| - 1].None?
  {
    assert T.SlotOk(q, geo, gs, es, |gs| - 1, N - 1);
    assert gs[|gs| - 1].tags[N - 1] == 1;
  }

  lemma ElementIsSound<K>(p: KeyPolicy<K>, geo: Geometry, gs: seq<T.Group>, es: seq<Option<K>>, s: State<K>, x: nat)
    requires T.Placed(Sequential(p), geo, gs, es) && x < |es| == |s.slots| && s.slots[x] == SlotFor(es, x)
    requires s.over == T.Overs(gs) && |s.cnt| == |gs|
    ensures !s.slots[x].InHand() && Sound(p, geo, s.over, s.cnt, x, s.slots[x])
  {
    var g, n := x / N, x % N;
    assert T.Elem(es, g, n) == es[x];
    assert T.SlotOk(Sequential(p), geo, gs, es, g, n);
  }

  lemma {:induction false} SlotsFromElements<K>(p: KeyPolicy<K>, es: seq<Option<K>>, slots: seq<Slot<K>>)
    requires |slots| == |es| > 0 && es[|es| - 1].None? && T.Distinct(Sequential(p), es)
    requires forall x :: 0 <= x < |es| ==> slots[x] == SlotFor(es, x)
    ensures SentinelLast(slots) && Distinct(p, slots)
    ensures Total(slots, LiveWeight) == |T.Used(es)|
  {
    UsedAreLive(slots, es);
  }

  /** A sequential table is a quiescent state; whatever the counters are, runs may start from it. */
  lemma TableIsQuiescent<K(!new)>(p: KeyPolicy<K>, geo: Geometry, gs: seq<T.Group>, es: seq<Option<K>>,
                                  cnt: seq<nat>, ml: int, threads: seq<Thread<K>>)
    requires Lawful(p) && T.Placed(Sequential(p), geo, gs, es) && T.Distinct(Sequential(p), es) && T.SentinelLast(gs)
    requires |T.Used(es)| <= ml <= N * geo.groups - 1 && |cnt| == geo.groups && Idle(threads)
    ensures Quiescent(p, geo, StateOf(gs, es, cnt, ml, threads))
  {
    var s := StateOf(gs, es, cnt, ml, threads);
    SentinelIsEmpty(Sequential(p), geo, gs, es);
    forall x | 0 <= x < |es| ensures !s.slots[x].InHand() && Sound(p, geo, s.over, s.cnt, x, s.slots[x]) {
      ElementIsSound(p, geo, gs, es, s, x);
    }
    SlotsFromElements(p, es, s.slots);
  }

  // ----- From a state to arrays -----

  function ElementOf<K>(v: Slot<K>): Option<K> {
    if v.Live? then Some(v.key) else None
  }

  ghost function ElementsOf<K>(s: State<K>): seq<Option<K>> {
    seq(|s.slots|, x requires 0 <= x < |s.slots| => ElementOf(s.slots[x]))
  }

  ghost function GroupFor<K>(p: KeyPolicy<K>, s: State<K>, g: nat): T.Group
    requires N * g + N <= |s.slots| && g < |s.over|
  {
    T.Group(seq<nat>(N, n requires 0 <= n < N => Tag(p, s.slots[N * g + n])), s.over[g])
  }

  ghost function GroupsOf<K>(p: KeyPolicy<K>, geo: Geometry, s: State<K>): seq<T.Group>
    requires Shaped(p, geo, s)
  {
    seq(geo.groups, g requires 0 <= g < geo.groups => GroupFor(p, s, g))
  }

  /** With all threads done no slot is in anyone's hand. */
  lemma NothingInHand<K>(p: KeyPolicy<K>, s: State<K>, x: nat)
    requires Hands(p, s.slots, s.threads) && x < |s.slots|
    requires AllDone(s.threads)
    ensures s.slots[x].Free? || s.slots[x].Sentinel? || s.slots[x].Live?
  {
    assert s.slots[x].InHand() ==>
             s.slots[x].owner < |s.threads| && SlotInHand(s.threads[s.slots[x].owner].pc) == x;
  }

  /** A settled slot, with its metadata and element in the arrays, is as it should be in a sequential table. */
  lemma SettledSlotIsOk<K>(p: KeyPolicy<K>, geo: Geometry, gs: seq<T.Group>, es: seq<Option<K>>, s: State<K>, g: nat, n: nat)
    requires T.Shape(geo, gs, es) && g < |gs| && n < N && N * g + n < |s.slots|
    requires s.over == T.Overs(gs) && |s.cnt| == |gs|
    requires var v := s.slots[N * g + n];
             && (v.Free? || v.Sentinel? || v.Live?)
             && gs[g].tags[n] == Tag(p, v) && T.Elem(es, g, n) == ElementOf(v)
             && Sound(p, geo, s.over, s.cnt, N * g + n, v)
    ensures T.SlotOk(Sequential(p), geo, gs, es, g, n)
  {
    assert GroupOf(N * g + n) == g;
  }

  lemma SlotIsOk<K>(p: KeyPolicy<K>, geo: Geometry, s: State<K>, g: nat, n: nat)
    requires Shaped(p, geo, s) && Hands(p, s.slots, s.threads) && Reachable(p, geo, s)
    requires AllDone(s.threads)
    requires T.Shape(geo, GroupsOf(p, geo, s), ElementsOf(s)) && g < geo.groups && n < N
    ensures T.SlotOk(Sequential(p), geo, GroupsOf(p, geo, s), ElementsOf(s), g, n)
  {
    var gs, es := GroupsOf(p, geo, s), ElementsOf(s);
    var x := N * g + n;
    NothingInHand(p, s, x);
    assert gs[g].tags[n] == Tag(p, s.slots[x]);
    assert T.Overs(gs) == s.over;
    SettledSlotIsOk(p, geo, gs, es, s, g, n);
  }

  lemma QuietSizes<K>(geo: Geometry, s: State<K>)
    requires Sized(geo, s) && AllDone(s.threads)
    ensures s.size == LiveCount(s) <= s.ml <= N * geo.groups - 1
  {
    TotalZero(s.threads, SizeWeight);
    TotalZero(s.threads, th => ClaimWeight(s.ml, th));
    TotalZero(s.threads, LoweredWeight);
  }

  lemma SentinelStaysLast<K>(p: KeyPolicy<K>, geo: Geometry, s: State<K>)
    requires Shaped(p, geo, s) && SentinelLast(s.slots)
    ensures T.SentinelLast(GroupsOf(p, geo, s))
  {
    var gs := GroupsOf(p, geo, s);
    forall g, n | 0 <= g < |gs| && 0 <= n < N
      ensures gs[g].tags[n] == 1 <==> g == |gs| - 1 && n == N - 1
    {
      assert gs[g].tags[n] == Tag(p, s.slots[N * g + n]);
    }
  }

  /** Whenever all threads of a run are done, metadata, elements and counters make up a valid sequential table. */
  lemma QuietStateIsTable<K(!new)>(p: KeyPolicy<K>, geo: Geometry, run: seq<State<K>>, acts: seq<nat>, i: nat)
    requires Lawful(p) && IsRun(p, geo, run, acts) && i < |run| && AllDone(run[i].threads)
    ensures Shaped(p, geo, run[i])
    ensures var gs, es := GroupsOf(p, geo, run[i]), ElementsOf(run[i]);
            && T.Placed(Sequential(p), geo, gs, es)
            && T.Distinct(Sequential(p), es)
            && T.SentinelLast(gs)
            && run[i].size == |T.Used(es)| <= run[i].ml <= N * geo.groups - 1
  {
    RunInv(p, geo, run, acts, i);
    var s := run[i];
    var gs, es := GroupsOf(p, geo, s), ElementsOf(s);
    assert T.Shape(geo, gs, es);
    forall g, n | 0 <= g < |gs| && 0 <= n < N ensures T.SlotOk(Sequential(p), geo, gs, es, g, n) {
      SlotIsOk(p, geo, s, g, n);
    }
    SentinelStaysLast(p, geo, s);
    QuietSizes(geo, s);
    UsedAreLive(s.slots, es);
  }
}
