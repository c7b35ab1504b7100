/**
 Histories of the concurrent table: runs of any number of threads, and between two runs, with all threads done, a
 rehash of the sequential table. What threads add and remove is all that ever changes the number of elements.
 */
module ConcurrentPhases {
  import opened SizePolicy
  import opened Keys
  import opened Probing
  import opened Counting
  import opened Wrappers
  import opened ConcurrentTable
  import opened ConcurrentSteps
  import opened ConcurrentSafety
  import opened ConcurrentUniqueness
  import opened ConcurrentSizes
  import opened ConcurrentRuns
  import opened ConcurrentEffects
  import opened ConcurrentHandover
  import T = TableLayout
  import H = HashTable
  import P = Prober

  // ----- What the steps of a run add up to -----

  function KeyWeight<K>(v: Slot<K>): int {
    if v.HasKey() then 1 else 0
  }

  /** Elements stored or promised. */
  ghost function KeyCount<K>(s: State<K>): int { Total(s.slots, KeyWeight) }

  /** By how much the number of elements changes with a step that leads to `pc'`. */
  function Gain(pc': PC): int {
    if pc'.InsConstruct? then 1 else if pc'.EraseLoad? then -1 else 0
  }

  lemma PutGains<K>(s: State<K>, x: nat, s': State<K>)
    requires x < |s.slots| == |s'.slots| && s'.slots == s.slots[x := s'.slots[x]]
    ensures KeyCount(s') == KeyCount(s) - KeyWeight(s.slots[x]) + KeyWeight(s'.slots[x])
  {
    TotalUpdate(s.slots, KeyWeight, x, s'.slots[x]);
  }

  lemma InsertGains<K>(p: KeyPolicy<K>, geo: Geometry, s: State<K>, t: nat, s': State<K>)
    requires Safe(p, geo, s) && Next(p, geo, s, t, s') && s'.threads[t].pc.InsConstruct?
    ensures KeyCount(s') == KeyCount(s) + 1
  {
    StepMovesOne(p, geo, s, t, s');
    CountChanges(p, geo, s, t, s');
    PutGains(s, s.threads[t].pc.slot, s');
  }

  /** A step adds an element, or removes one, or leaves their number alone. */
  lemma StepGains<K(!new)>(p: KeyPolicy<K>, geo: Geometry, s: State<K>, t: nat, s': State<K>)
    requires Safe(p, geo, s) && Next(p, geo, s, t, s')
    ensures KeyCount(s') == KeyCount(s) + Gain(s'.threads[t].pc)
  {
    if s'.threads[t].pc.InsConstruct? {
      InsertGains(p, geo, s, t, s');
    } else if s'.threads[t].pc.EraseLoad? {
      ErasureDestroys(p, geo, s, t, s');
      PutGains(s, s'.threads[t].pc.slot, s');
    } else {
      OtherStepsKeepElements(p, geo, s, t, s');
      assert forall x :: 0 <= x < |s.slots| ==> SameElement(s.slots[x], s'.slots[x]);
      TotalPointwise(s.slots, s'.slots, KeyWeight);
    }
  }

  /** Elements added less elements removed by the steps up to state `i`. */
  ghost function Gains<K>(run: seq<State<K>>, acts: seq<nat>, i: nat): int
    requires i < |run| == |acts| + 1
  {
    if i == 0 then 0
    else Gains(run, acts, i - 1) + if acts[i - 1] < |run[i].threads| then Gain(run[i].threads[acts[i - 1]].pc) else 0
  }

  lemma GainOf<K(!new)>(p: KeyPolicy<K>, geo: Geometry, s: State<K>, t: nat, s': State<K>)
    requires Inv(p, geo, s) && Next(p, geo, s, t, s')
    ensures KeyCount(s') == KeyCount(s) + Gain(s'.threads[t].pc)
  {
    StepGains(p, geo, s, t, s');
  }

  lemma GainAt<K(!new)>(p: KeyPolicy<K>, geo: Geometry, run: seq<State<K>>, acts: seq<nat>, i: nat)
    requires Lawful(p) && IsRun(p, geo, run, acts) && 0 < i < |run|
    ensures acts[i - 1] < |run[i].threads|
    ensures KeyCount(run[i]) == KeyCount(run[i - 1]) + Gain(run[i].threads[acts[i - 1]].pc)
  {
    var s, t, s' := run[i - 1], acts[i - 1], run[i];
    RunInv(p, geo, run, acts, i - 1);
    StepInto(p, geo, run, acts, i);
    GainOf(p, geo, s, t, s');
  }

  lemma {:induction false} RunGains<K(!new)>(p: KeyPolicy<K>, geo: Geometry, run: seq<State<K>>, acts: seq<nat>, i: nat)
    requires Lawful(p) && IsRun(p, geo, run, acts) && i < |run|
    ensures KeyCount(run[i]) == KeyCount(run[0]) + Gains(run, acts, i)
  {
    if i > 0 {
      RunGains(p, geo, run, acts, i - 1);
      GainAt(p, geo, run, acts, i);
    }
  }

  /** With all threads done the size counter is the number of elements. */
  lemma QuietSizeIsCount<K>(p: KeyPolicy<K>, geo: Geometry, s: State<K>)
    requires Hands(p, s.slots, s.threads) && Sized(geo, s) && AllDone(s.threads)
    ensures s.size == KeyCount(s)
  {
    QuietSizes(geo, s);
    forall v | v in s.slots ensures KeyWeight(v) == LiveWeight(v) {
      var x :| 0 <= x < |s.slots| && s.slots[x] == v;
      NothingInHand(p, s, x);
    }
    TotalAtMost(s.slots, KeyWeight, LiveWeight);
    TotalAtMost(s.slots, LiveWeight, KeyWeight);
  }

  // ----- Histories -----

  /** A stretch of time without a rehash. */
  datatype Phase<K> = Phase(geo: Geometry, run: seq<State<K>>, acts: seq<nat>)

  ghost predicate IsPhase<K>(p: KeyPolicy<K>, ph: Phase<K>) {
    IsRun(p, ph.geo, ph.run, ph.acts)
  }

  ghost function Last<K>(ph: Phase<K>): State<K>
    requires ph.run != []
  {
    ph.run[|ph.run| - 1]
  }

  /** The elements of a table nobody is using are the same as before. */
  ghost predicate Rehashed<K>(s: State<K>, s': State<K>) {
    T.Contents(ElementsOf(s')) == T.Contents(ElementsOf(s)) && s'.size == s.size
  }

  /** Runs follow one another; between two of them all threads are done and the table is rehashed. */
  ghost predicate IsHistory<K>(p: KeyPolicy<K>, h: seq<Phase<K>>) {
    && (forall i :: 0 <= i < |h| ==> IsPhase(p, h[i]))
    && (forall i :: 0 < i < |h| ==> Follows(h[i - 1], h[i]))
  }

  ghost predicate Follows<K>(a: Phase<K>, b: Phase<K>) {
    && a.run != [] && b.run != []
    && AllDone(Last(a).threads) && Rehashed(Last(a), b.run[0])
  }

  ghost function HistoryGains<K>(h: seq<Phase<K>>): int
    requires forall i :: 0 <= i < |h| ==> |h[i].run| == |h[i].acts| + 1
  {
    if h == [] then 0
    else HistoryGains(h[..|h| - 1]) + Gains(h[|h| - 1].run, h[|h| - 1].acts, |h[|h| - 1].acts|)
  }

  lemma PhaseGains<K(!new)>(p: KeyPolicy<K>, ph: Phase<K>)
    requires Lawful(p) && IsPhase(p, ph) && AllDone(Last(ph).threads)
    ensures Last(ph).size == ph.run[0].size + Gains(ph.run, ph.acts, |ph.acts|)
  {
    RunGains(p, ph.geo, ph.run, ph.acts, |ph.acts|);
    RunInv(p, ph.geo, ph.run, ph.acts, 0);
    RunInv(p, ph.geo, ph.run, ph.acts, |ph.acts|);
    QuietSizeIsCount(p, ph.geo, ph.run[0]);
    QuietSizeIsCount(p, ph.geo, Last(ph));
  }

  /** Over any history, rehashes included, the size is what it was, plus the elements added, less those removed. */
  lemma {:induction false} SizeIsBalance<K(!new)>(p: KeyPolicy<K>, h: seq<Phase<K>>)
    requires Lawful(p) && h != [] && IsHistory(p, h) && h[0].run != [] && h[|h| - 1].run != []
    requires AllDone(Last(h[|h| - 1]).threads)
    ensures forall i :: 0 <= i < |h| ==> |h[i].run| == |h[i].acts| + 1
    ensures Last(h[|h| - 1]).size == h[0].run[0].size + HistoryGains(h)
  {
    var n := |h| - 1;
    assert forall i :: 0 <= i < |h| ==> IsPhase(p, h[i]);
    PhaseGains(p, h[n]);
    if n > 0 {
      assert Follows(h[n - 1], h[n]);
      assert h[..n][n - 1] == h[n - 1];
      SizeIsBalance(p, h[..n]);
    }
  }

  /** Keys are distinct in every state of every phase. */
  lemma HistoryHasNoDuplicates<K(!new)>(p: KeyPolicy<K>, h: seq<Phase<K>>, i: nat, j: nat, x: nat, y: nat)
    requires Lawful(p) && IsHistory(p, h) && i < |h| && j < |h[i].run| && x < y < |h[i].run[j].slots|
    requires h[i].run[j].slots[x].Live? && h[i].run[j].slots[y].Live?
    ensures !p.eq(h[i].run[j].slots[x].key, h[i].run[j].slots[y].key)
  {
    assert IsPhase(p, h[i]);
    NoDuplicateKeys(p, h[i].geo, h[i].run, h[i].acts, j, x, y);
  }

  /** With all threads done the keys present are those of the elements stored. */
  lemma QuietPresence<K(!new)>(p: KeyPolicy<K>, s: State<K>, k: K)
    requires Hands(p, s.slots, s.threads) && AllDone(s.threads)
    ensures Present(p, s, k) <==> exists e :: e in T.Contents(ElementsOf(s)) && p.eq(k, e)
  {
    var es := ElementsOf(s);
    if x :| 0 <= x < |s.slots| && s.slots[x].HasKey() && p.eq(k, s.slots[x].key) {
      NothingInHand(p, s, x);
      assert es[x] == Some(s.slots[x].key) && s.slots[x].key in T.Contents(es);
    }
    if e :| e in T.Contents(es) && p.eq(k, e) {
      var x :| 0 <= x < |es| && es[x].Some? && es[x].value == e;
      assert s.slots[x].HasKey() && s.slots[x].key == e;
    }
  }

  /** A rehash changes the set of keys for nobody. */
  lemma RehashKeepsKeys<K(!new)>(p: KeyPolicy<K>, h: seq<Phase<K>>, i: nat)
    requires Lawful(p) && IsHistory(p, h) && 0 < i < |h|
    ensures h[i - 1].run != [] && h[i].run != [] && Keeps(p, Last(h[i - 1]), h[i].run[0])
  {
    assert Follows(h[i - 1], h[i]) && IsPhase(p, h[i - 1]) && IsPhase(p, h[i]);
    var s, s' := Last(h[i - 1]), h[i].run[0];
    RunInv(p, h[i - 1].geo, h[i - 1].run, h[i - 1].acts, |h[i - 1].acts|);
    RunInv(p, h[i].geo, h[i].run, h[i].acts, 0);
    forall k ensures Present(p, s', k) <==> Present(p, s, k) {
      QuietPresence(p, s, k);
      QuietPresence(p, s', k);
    }
  }

  // ----- The rehash between two phases -----

  /** The table object holds what the quiet state `s` says. */
  ghost predicate Holds<K(!new)>(p: KeyPolicy<K>, geo: Geometry, table: H.Table<K, K>, s: State<K>)
    reads table, table.arrays.groups, table.arrays.elements
  {
    && Shaped(p, geo, s) && table.p == Sequential(p) && table.arrays.geo == geo && table.arrays.backed
    && table.arrays.groups[..] == GroupsOf(p, geo, s) && table.arrays.elements[..] == ElementsOf(s)
    && table.ml == s.ml && table.size == s.size
  }

  lemma TagRestored<K>(p: KeyPolicy<K>, geo: Geometry, gs: seq<T.Group>, es: seq<Option<K>>, g: nat, n: nat)
    requires T.Placed(Sequential(p), geo, gs, es) && T.SentinelLast(gs) && g < |gs| && n < N
    ensures N * g + n < |es| && Tag(p, SlotFor(es, N * g + n)) == gs[g].tags[n]
  {
    assert T.SlotOk(Sequential(p), geo, gs, es, g, n);
    SentinelIsEmpty(Sequential(p), geo, gs, es);
    assert (N * g + n == |es| - 1) <==> (g == |gs| - 1 && n == N - 1);
  }

  /** The two views of a table are inverse to each other. */
  lemma ViewsAgree<K(!new)>(p: KeyPolicy<K>, geo: Geometry, gs: seq<T.Group>, es: seq<Option<K>>, s: State<K>)
    requires T.Placed(Sequential(p), geo, gs, es) && T.SentinelLast(gs) && Shaped(p, geo, s)
    requires s == StateOf(gs, es, s.cnt, s.ml, s.threads)
    ensures GroupsOf(p, geo, s) == gs && ElementsOf(s) == es
  {
    forall g | 0 <= g < |gs| ensures GroupFor(p, s, g) == gs[g] {
      forall n | 0 <= n < N ensures GroupFor(p, s, g).tags[n] == gs[g].tags[n] {
        TagRestored(p, geo, gs, es, g, n);
      }
    }
  }

  /** Growing a full table between two phases: the next phase may start from it, with room for more elements. */
  method RehashIfFull<K(!new)>(p: KeyPolicy<K>, table: H.Table<K, K>, ghost s: State<K>) returns (ghost s': State<K>)
    requires Lawful(p) && table.Valid() && Holds(p, table.arrays.geo, table, s) && Idle(s.threads)
    requires GrowthRequest(table.size) < P.Pow2(WORD)
    modifies table, table.arrays.groups, table.arrays.elements
    ensures table.Valid() && Holds(p, table.arrays.geo, table, s')
    ensures Quiescent(p, table.arrays.geo, s') && s'.threads == s.threads
    ensures Rehashed(s, s') && s'.size < s'.ml
  {
    table.RehashIfFull();
    ghost var gs, es, geo := table.arrays.groups[..], table.arrays.elements[..], table.arrays.geo;
    // new arrays come with insertion counters of zero
    ghost var cnt: seq<nat> := if table.arrays == old(table.arrays) then s.cnt else seq(geo.groups, _ => 0);
    s' := StateOf(gs, es, cnt, table.ml, s.threads);
    TableIsQuiescent(p, geo, gs, es, cnt, table.ml, s.threads);
    ViewsAgree(p, geo, gs, es, s');
  }
}
