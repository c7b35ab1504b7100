/** Whole runs of the concurrent table: the joint invariant and what it means in every state. */
module ConcurrentRuns {
  import opened SizePolicy
  import opened Keys
  import opened Probing
  import opened Counting
  import opened ConcurrentTable
  import opened ConcurrentSteps
  import opened ConcurrentSafety
  import opened ConcurrentUniqueness
  import opened ConcurrentSizes
  import opened Runs

  ghost predicate SentinelLast<K>(slots: seq<Slot<K>>) {
    && |slots| > 0
    && slots[|slots| - 1].Sentinel?
    && forall x :: 0 <= x < |slots| - 1 ==> !slots[x].Sentinel?
  }

  ghost predicate Inv<K>(p: KeyPolicy<K>, geo: Geometry, s: State<K>) {
    && Safe(p, geo, s)
    && Reachable(p, geo, s)
    && Seen(p, geo, s)
    && Distinct(p, s.slots)
    && Sized(geo, s)
    && SentinelLast(s.slots)
    && NoSentinelMatched(s)
  }

  function MaskOf(pc: PC): set<nat> {
    match pc
    case Await(_, m) => m
    case Compare(_, m) => m
    case _ => {}
  }

  /** Reduced hashes differ from the sentinel mark, so no lookup ever matches the sentinel. */
  ghost predicate NoSentinelMatched<K>(s: State<K>) {
    forall t :: 0 <= t < |s.threads| ==> |s.slots| - 1 !in MaskOf(s.threads[t].pc)
  }

  /** A table nobody is using: what construction, rehash and clear leave behind. */
  ghost predicate Quiescent<K>(p: KeyPolicy<K>, geo: Geometry, s: State<K>) {
    && Shaped(p, geo, s)
    && (forall t :: 0 <= t < |s.threads| ==>
                      s.threads[t].pc.Done? && (s.threads[t].op.Erase? ==> s.threads[t].excl))
    && (forall x :: 0 <= x < |s.slots| ==>
                      && !s.slots[x].InHand()
                      && Sound(p, geo, s.over, s.cnt, x, s.slots[x]))
    && SentinelLast(s.slots)
    && Distinct(p, s.slots)
    && s.size == LiveCount(s) <= s.ml <= N * geo.groups - 1
  }

  lemma QuiescentSized<K>(p: KeyPolicy<K>, geo: Geometry, s: State<K>)
    requires Quiescent(p, geo, s)
    ensures Sized(geo, s)
  {
    TotalZero(s.threads, SizeWeight);
    TotalZero(s.threads, th => ClaimWeight(s.ml, th));
    TotalZero(s.threads, HandWeight);
    TotalZero(s.threads, LoweredWeight);
    TotalAtMost(s.slots, LiveWeight, OccupiedWeight);
    TotalAtMost(s.slots, OccupiedWeight, LiveWeight);
  }

  lemma QuiescentThreads<K>(p: KeyPolicy<K>, geo: Geometry, s: State<K>)
    requires Quiescent(p, geo, s)
    ensures GroupsExclusive(p, geo, s.threads) && Hands(p, s.slots, s.threads) && Swept(s)
    ensures Seen(p, geo, s) && NoSentinelMatched(s)
  {
    assert forall t :: 0 <= t < |s.threads| ==> HeldGroup(p, geo, s.threads[t]) == -1;
    assert forall t :: 0 <= t < |s.threads| ==> MaskOf(s.threads[t].pc) == {};
  }

  lemma QuiescentInv<K>(p: KeyPolicy<K>, geo: Geometry, s: State<K>)
    requires Quiescent(p, geo, s)
    ensures Inv(p, geo, s)
  {
    QuiescentSized(p, geo, s);
    QuiescentThreads(p, geo, s);
  }

  lemma SentinelPut<K>(slots: seq<Slot<K>>, x: nat, v: Slot<K>)
    requires SentinelLast(slots) && x < |slots|
    requires !slots[x].Sentinel? && !v.Sentinel?
    ensures SentinelLast(slots[x := v])
  {
  }

  lemma MaskUpdate<K>(s: State<K>, t: nat, s': State<K>)
    requires t < |s.threads| == |s'.threads| && s'.threads == s.threads[t := s'.threads[t]] && |s'.slots| == |s.slots|
    requires NoSentinelMatched(s) && |s.slots| - 1 !in MaskOf(s'.threads[t].pc)
    ensures NoSentinelMatched(s')
  {
  }

  lemma ProbeMasks<K>(p: KeyPolicy<K>, s: State<K>, g: nat, h: nat)
    requires N * g + N <= |s.slots| && SentinelLast(s.slots)
    ensures |s.slots| - 1 !in Matching(p, s, g, Reduced(h))
  {
    assert Tag(p, s.slots[|s.slots| - 1]) == 1;
  }

  lemma LookupMasks<K>(p: KeyPolicy<K>, geo: Geometry, s: State<K>, t: nat, s': State<K>)
    requires Shaped(p, geo, s) && t < |s.threads| && LookupStep(p, geo, s, t, s') && MovesOne(p, geo, s, t, s')
    requires SentinelLast(s.slots) && NoSentinelMatched(s)
    ensures |s.slots| - 1 !in MaskOf(s'.threads[t].pc)
  {
    var th := s.threads[t];
    assert ShapedThread(p, geo, th) && |s.slots| - 1 !in MaskOf(th.pc);
    if th.pc.Probe? {
      ProbeMasks(p, s, GroupAt(p, geo, th.key, th.pc.step), p.hash(th.key));
    }
  }

  // ----- Every step keeps the invariant -----

  lemma PassKeepsInv<K>(p: KeyPolicy<K>, geo: Geometry, s: State<K>, t: nat, s': State<K>)
    requires Inv(p, geo, s) && Passes(s, t, s') && MovesOne(p, geo, s, t, s') && Asks(p, geo, s, t)
    requires Unburdened(s.threads[t].pc) && Unburdened(s'.threads[t].pc)
    requires ShapedThread(p, geo, s'.threads[t]) && SweptBy(s.slots, s'.threads[t])
    requires SeenBy(p, geo, s.slots, s'.threads[t]) && CounterOk(p, geo, s.cnt, s'.threads[t])
    requires |s.slots| - 1 !in MaskOf(s'.threads[t].pc)
    ensures Inv(p, geo, s')
  {
    ShapeKept(p, geo, s, t, s');
    StepKeepsExclusion(p, geo, s, t, s');
    SameTableKeepsHands(p, s, t, s');
    SweptKept(s, t, s'.threads[t], s');
    SameTableKeepsReachable(p, geo, s, t, s');
    PassKeepsSeen(p, geo, s, t, s');
    PassKeepsSized(geo, s, t, s');
    MaskUpdate(s, t, s');
  }

  lemma DestroyKeepsInv<K>(p: KeyPolicy<K>, geo: Geometry, s: State<K>, t: nat, s': State<K>)
    requires Inv(p, geo, s) && Destroys(p, geo, s, t, s') && MovesOne(p, geo, s, t, s') && Asks(p, geo, s, t)
    ensures Inv(p, geo, s')
  {
    DestroyKeepsSafe(p, geo, s, t, s');
    DestroyKeepsReachable(p, geo, s, t, s');
    DestroyKeepsSeen(p, geo, s, t, s');
    DestroyKeepsSized(p, geo, s, t, s');
    SentinelPut(s.slots, s'.threads[t].pc.slot, s'.slots[s'.threads[t].pc.slot]);
    MaskUpdate(s, t, s');
  }

  lemma AccountKeepsInv<K>(p: KeyPolicy<K>, geo: Geometry, s: State<K>, t: nat, s': State<K>)
    requires Inv(p, geo, s) && Accounts(p, geo, s, t, s') && Asks(p, geo, s, t)
    ensures Inv(p, geo, s')
  {
    AccountKeepsSafe(p, geo, s, t, s');
    SameTableKeepsReachable(p, geo, s, t, s');
    AccountKeepsSeen(p, geo, s, t, s');
    AccountKeepsSized(p, geo, s, t, s');
    MaskUpdate(s, t, s');
  }

  lemma ScanKeepsInv<K>(p: KeyPolicy<K>, geo: Geometry, s: State<K>, t: nat, s': State<K>)
    requires Inv(p, geo, s) && t < |s.threads| && s.threads[t].pc.InsScan? && ScanStep(p, geo, s, t, s')
    requires MovesOne(p, geo, s, t, s') && Asks(p, geo, s, t)
    ensures Inv(p, geo, s')
  {
    ScanKeepsSafe(p, geo, s, t, s');
    ScanKeepsReachable(p, geo, s, t, s');
    ScanKeepsSeen(p, geo, s, t, s');
    ScanChanges(p, geo, s, t, s');
    ScanKeepsSized(geo, s, t, s');
    ScanKeepsSentinel(p, geo, s, t, s');
    ScanKeepsDistinct(p, geo, s, t, s');
    MaskUpdate(s, t, s');
  }

  lemma ScanKeepsSentinel<K>(p: KeyPolicy<K>, geo: Geometry, s: State<K>, t: nat, s': State<K>)
    requires Shaped(p, geo, s) && t < |s.threads| && s.threads[t].pc.InsScan? && ScanStep(p, geo, s, t, s')
    requires SentinelLast(s.slots)
    ensures SentinelLast(s'.slots)
  {
    var pc' := s'.threads[t].pc;
    if pc'.InsCount? {
      SentinelPut(s.slots, pc'.slot, s'.slots[pc'.slot]);
    }
  }

  lemma ScanKeepsDistinct<K>(p: KeyPolicy<K>, geo: Geometry, s: State<K>, t: nat, s': State<K>)
    requires Shaped(p, geo, s) && t < |s.threads| && s.threads[t].pc.InsScan? && ScanStep(p, geo, s, t, s')
    requires Distinct(p, s.slots)
    ensures Distinct(p, s'.slots)
  {
  }

  lemma CountKeepsInv<K(!new)>(p: KeyPolicy<K>, geo: Geometry, s: State<K>, t: nat, s': State<K>)
    requires Lawful(p) && Inv(p, geo, s) && Counts(p, geo, s, t, s') && MovesOne(p, geo, s, t, s') && Asks(p, geo, s, t)
    ensures Inv(p, geo, s')
  {
    CountKeepsSafe(p, geo, s, t, s');
    CountKeepsReachable(p, geo, s, t, s');
    CountKeepsSeen(p, geo, s, t, s');
    CountKeepsDistinct(p, geo, s, t, s');
    CountKeepsSized(p, geo, s, t, s');
    SentinelPut(s.slots, s.threads[t].pc.slot, s'.slots[s.threads[t].pc.slot]);
    MaskUpdate(s, t, s');
  }

  lemma SettleKeepsInv<K>(p: KeyPolicy<K>, geo: Geometry, s: State<K>, t: nat, s': State<K>)
    requires Inv(p, geo, s) && Settles(p, geo, s, t, s') && Asks(p, geo, s, t)
    ensures Inv(p, geo, s')
  {
    SettleKeepsSafe(p, geo, s, t, s');
    SettleKeepsReachable(p, geo, s, t, s');
    SettleKeepsSeen(p, geo, s, t, s');
    SettleKeepsSized(p, geo, s, t, s');
    SentinelPut(s.slots, s.threads[t].pc.slot, s'.slots[s.threads[t].pc.slot]);
    MaskUpdate(s, t, s');
  }

  lemma StartStepKeepsInv<K(!new)>(p: KeyPolicy<K>, geo: Geometry, s: State<K>, t: nat, s': State<K>)
    requires Lawful(p) && Inv(p, geo, s) && t < |s.threads| && StartStep(p, geo, s, t, s')
    ensures Inv(p, geo, s')
  {
    StartKeepsThreadShape(p, geo, s, t, s');
    PassKeepsInv(p, geo, s, t, s');
  }

  lemma LookupStepKeepsInv<K(!new)>(p: KeyPolicy<K>, geo: Geometry, s: State<K>, t: nat, s': State<K>)
    requires Lawful(p) && Inv(p, geo, s) && t < |s.threads| && LookupStep(p, geo, s, t, s')
    requires MovesOne(p, geo, s, t, s') && Asks(p, geo, s, t)
    ensures Inv(p, geo, s')
  {
    LookupChanges(p, geo, s, t, s');
    if s'.threads[t].pc.EraseLoad? {
      DestroyKeepsInv(p, geo, s, t, s');
    } else {
      LookupKeepsThreadShape(p, geo, s, t, s');
      assert SeenBy(p, geo, s.slots, s.threads[t]) && CounterOk(p, geo, s.cnt, s.threads[t]);
      LookupKeepsSeenBy(p, geo, s, t, s');
      LookupMasks(p, geo, s, t, s');
      PassKeepsInv(p, geo, s, t, s');
    }
  }

  lemma SweepStepKeepsInv<K(!new)>(p: KeyPolicy<K>, geo: Geometry, s: State<K>, t: nat, s': State<K>)
    requires Lawful(p) && Inv(p, geo, s) && t < |s.threads| && SweepStep(p, geo, s, t, s')
    requires MovesOne(p, geo, s, t, s') && Asks(p, geo, s, t)
    ensures Inv(p, geo, s')
  {
    SweepChanges(p, geo, s, t, s');
    if s'.threads[t].pc.EraseLoad? {
      DestroyKeepsInv(p, geo, s, t, s');
    } else {
      SweepKeepsThreadShape(p, geo, s, t, s');
      SweepKeepsSweptBy(p, geo, s, t, s');
      assert CounterOk(p, geo, s.cnt, s.threads[t]);
      NothingAhead(p, geo, s.slots, s'.threads[t]);
      PassKeepsInv(p, geo, s, t, s');
    }
  }

  lemma InsertStepKeepsInv<K(!new)>(p: KeyPolicy<K>, geo: Geometry, s: State<K>, t: nat, s': State<K>)
    requires Lawful(p) && Inv(p, geo, s) && t < |s.threads| && InsertStep(p, geo, s, t, s')
    requires MovesOne(p, geo, s, t, s') && Asks(p, geo, s, t)
    ensures Inv(p, geo, s')
  {
    if s.threads[t].pc.InsScan? {
      ScanKeepsInv(p, geo, s, t, s');
    } else if s.threads[t].pc.InsCount? {
      CountChanges(p, geo, s, t, s');
      CountKeepsInv(p, geo, s, t, s');
    } else {
      InsertSettles(p, geo, s, t, s');
      SettleKeepsInv(p, geo, s, t, s');
    }
  }

  lemma EraseStepKeepsInv<K>(p: KeyPolicy<K>, geo: Geometry, s: State<K>, t: nat, s': State<K>)
    requires Inv(p, geo, s) && t < |s.threads| && EraseStep(p, geo, s, t, s')
    requires Asks(p, geo, s, t)
    ensures Inv(p, geo, s')
  {
    if s.threads[t].pc.EraseReset? {
      EraseSettles(p, geo, s, t, s');
      SettleKeepsInv(p, geo, s, t, s');
    } else {
      EraseAccounts(p, geo, s, t, s');
      AccountKeepsInv(p, geo, s, t, s');
    }
  }

  lemma StepKeepsInv<K(!new)>(p: KeyPolicy<K>, geo: Geometry, s: State<K>, t: nat, s': State<K>)
    requires Lawful(p) && Inv(p, geo, s) && t < |s.threads| && Step(p, geo, s, t, s')
    ensures Inv(p, geo, s')
  {
    StepMovesOne(p, geo, s, t, s');
    StepAsks(p, geo, s, t, s');
    if StartStep(p, geo, s, t, s') {
      StartStepKeepsInv(p, geo, s, t, s');
    } else if LookupStep(p, geo, s, t, s') {
      LookupStepKeepsInv(p, geo, s, t, s');
    } else if ReserveStep(p, geo, s, t, s') {
      ReserveAccounts(p, geo, s, t, s');
      AccountKeepsInv(p, geo, s, t, s');
    } else if InsertStep(p, geo, s, t, s') {
      InsertStepKeepsInv(p, geo, s, t, s');
    } else if EraseStep(p, geo, s, t, s') {
      EraseStepKeepsInv(p, geo, s, t, s');
    } else {
      SweepStepKeepsInv(p, geo, s, t, s');
    }
  }

  // ----- Runs -----

  ghost predicate Next<K>(p: KeyPolicy<K>, geo: Geometry, s: State<K>, t: nat, s': State<K>) {
    Shaped(p, geo, s) && t < |s.threads| == |s'.threads| && Step(p, geo, s, t, s')
  }

  /** Step `i` of a run, made by thread `acts[i]`. */
  ghost predicate StepAt<K>(p: KeyPolicy<K>, geo: Geometry, run: seq<State<K>>, acts: seq<nat>, i: nat) {
    i + 1 < |run| == |acts| + 1 && Next(p, geo, run[i], acts[i], run[i + 1])
  }

  /** A finite run of any number of threads from a table nobody was using. */
  ghost predicate IsRun<K>(p: KeyPolicy<K>, geo: Geometry, run: seq<State<K>>, acts: seq<nat>) {
    && |run| == |acts| + 1
    && Quiescent(p, geo, run[0])
    && forall i :: 0 <= i < |acts| ==> StepAt(p, geo, run, acts, i)
  }

  /** The step into state `i`. */
  lemma StepInto<K>(p: KeyPolicy<K>, geo: Geometry, run: seq<State<K>>, acts: seq<nat>, i: nat)
    requires IsRun(p, geo, run, acts) && 0 < i < |run|
    ensures Next(p, geo, run[i - 1], acts[i - 1], run[i])
  {
    assert StepAt(p, geo, run, acts, i - 1);
  }

  lemma StepsOf<K>(p: KeyPolicy<K>, geo: Geometry, run: seq<State<K>>, acts: seq<nat>)
    requires IsRun(p, geo, run, acts)
    ensures forall i :: 0 <= i < |acts| ==> Next(p, geo, run[i], acts[i], run[i + 1])
  {
    forall i | 0 <= i < |acts| ensures Next(p, geo, run[i], acts[i], run[i + 1]) {
      assert StepAt(p, geo, run, acts, i);
    }
  }

  lemma RunInv<K(!new)>(p: KeyPolicy<K>, geo: Geometry, run: seq<State<K>>, acts: seq<nat>, i: nat)
    requires Lawful(p) && IsRun(p, geo, run, acts) && i < |run|
    ensures Inv(p, geo, run[i])
  {
    QuiescentInv(p, geo, run[0]);
    forall s, t, s' | Next(p, geo, s, t, s') && Inv(p, geo, s) ensures Inv(p, geo, s') {
      StepKeepsInv(p, geo, s, t, s');
    }
    StepsOf(p, geo, run, acts);
    Along((s, t, s') => Next(p, geo, s, t, s'), s => true, s => Inv(p, geo, s), run, acts, 0, i);
  }

  /** No two slots ever hold equal keys, in any interleaving. */
  lemma NoDuplicateKeys<K(!new)>(p: KeyPolicy<K>, geo: Geometry, run: seq<State<K>>, acts: seq<nat>,
                                 i: nat, x: nat, y: nat)
    requires Lawful(p) && IsRun(p, geo, run, acts) && i < |run|
    requires x < y < |run[i].slots| && run[i].slots[x].Live? && run[i].slots[y].Live?
    ensures !p.eq(run[i].slots[x].key, run[i].slots[y].key)
  {
    RunInv(p, geo, run, acts, i);
  }

  lemma OneSentinel<K>(slots: seq<Slot<K>>)
    requires SentinelLast(slots)
    ensures Total(slots, SentinelWeight) == 1
  {
    TotalZero(slots[..|slots| - 1], SentinelWeight);
  }

  /**
   In every state elements and reservations granted fit the maximum load, and there are as many free slots as
   reservations granted that still look for one.
   */
  lemma LoadInEveryState<K(!new)>(p: KeyPolicy<K>, geo: Geometry, run: seq<State<K>>, acts: seq<nat>, i: nat)
    requires Lawful(p) && IsRun(p, geo, run, acts) && i < |run|
    ensures LiveCount(run[i]) + Total(run[i].threads, GrantWeight) <= run[i].ml <= N * geo.groups - 1
    ensures 0 <= LiveCount(run[i]) <= run[i].size
    ensures Total(run[i].slots, FreeWeight) >= Total(run[i].threads, SeekerWeight)
  {
    RunInv(p, geo, run, acts, i);
    LoadIsRespected(geo, run[i]);
    OneSentinel(run[i].slots);
    FreeSlotsSuffice(geo, run[i]);
  }

  lemma MatchedSlotIsReal<K>(p: KeyPolicy<K>, geo: Geometry, s: State<K>, t: nat, x: nat)
    requires Shaped(p, geo, s) && SentinelLast(s.slots) && NoSentinelMatched(s)
    requires t < |s.threads| && s.threads[t].pc.Compare? && x in s.threads[t].pc.mask
    ensures x < |s.slots| && !s.slots[x].Sentinel?
  {
    assert ShapedThread(p, geo, s.threads[t]);
    assert x in MaskOf(s.threads[t].pc);
  }

  /** A thread comparing keys only ever reads free or fully constructed slots. */
  lemma NoUnconstructedRead<K(!new)>(p: KeyPolicy<K>, geo: Geometry, run: seq<State<K>>, acts: seq<nat>,
                                     i: nat, t: nat, x: nat)
    requires Lawful(p) && IsRun(p, geo, run, acts) && i < |run|
    requires t < |run[i].threads| && run[i].threads[t].pc.Compare? && x in run[i].threads[t].pc.mask
    ensures x < |run[i].slots| && (run[i].slots[x].Free? || run[i].slots[x].Live?)
  {
    RunInv(p, geo, run, acts, i);
    MatchedSlotIsReal(p, geo, run[i], t, x);
    ComparedSlotIsSettled(p, geo, run[i], t, x);
  }

  /** A sweep finds a constructed element in every slot it comes to. */
  lemma SweepMeetsElements<K(!new)>(p: KeyPolicy<K>, geo: Geometry, run: seq<State<K>>, acts: seq<nat>,
                                    i: nat, t: nat, x: nat)
    requires Lawful(p) && IsRun(p, geo, run, acts) && i < |run|
    requires t < |run[i].threads| && run[i].threads[t].pc.SweepNext? && x in run[i].threads[t].pc.mask
    ensures x < |run[i].slots| && run[i].slots[x].Live?
  {
    RunInv(p, geo, run, acts, i);
    assert SweptBy(run[i].slots, run[i].threads[t]);
  }
}
