/** What every step of the concurrent table keeps. */
module ConcurrentSafety {
  import opened SizePolicy
  import opened Keys
  import opened Probing
  import opened ConcurrentTable
  import opened ConcurrentSteps

  // ----- Ranges -----

  lemma ShapeKept<K>(p: KeyPolicy<K>, geo: Geometry, s: State<K>, t: nat, s': State<K>)
    requires Shaped(p, geo, s) && t < |s.threads| == |s'.threads| && s'.threads == s.threads[t := s'.threads[t]]
    requires |s'.slots| == |s.slots| && |s'.over| == |s.over| && |s'.cnt| == |s.cnt|
    requires forall g :: 0 <= g < |s'.over| ==> |s'.over[g]| == 8
    requires ShapedThread(p, geo, s'.threads[t])
    ensures Shaped(p, geo, s')
  {
  }

  /** Where the next program counter adds nothing to the indices of the one before. */
  lemma FlowKeepsShape<K>(p: KeyPolicy<K>, geo: Geometry, th: Thread<K>, th': Thread<K>)
    requires ShapedThread(p, geo, th) && ThreadFlows(p, geo, th, th')
    requires !Unburdened(th.pc) || th.pc.ReserveSize?
    requires !th.pc.InsScan?
    ensures ShapedThread(p, geo, th')
  {
  }

  lemma FlowsShaped<K>(p: KeyPolicy<K>, geo: Geometry, s: State<K>, t: nat, s': State<K>)
    requires Shaped(p, geo, s) && MovesOne(p, geo, s, t, s')
    requires |s'.slots| == |s.slots| && s'.over == s.over && |s'.cnt| == |s.cnt|
    requires !Unburdened(s.threads[t].pc) || s.threads[t].pc.ReserveSize?
    requires !s.threads[t].pc.InsScan?
    ensures Shaped(p, geo, s')
  {
    assert ShapedThread(p, geo, s.threads[t]);
    FlowKeepsShape(p, geo, s.threads[t], s'.threads[t]);
    ShapeKept(p, geo, s, t, s');
  }

  lemma DestroyKeepsThreadShape<K>(p: KeyPolicy<K>, geo: Geometry, s: State<K>, t: nat, s': State<K>)
    requires Shaped(p, geo, s) && Destroys(p, geo, s, t, s')
    ensures ShapedThread(p, geo, s'.threads[t])
  {
    assert ShapedThread(p, geo, s.threads[t]);
  }

  lemma StartKeepsThreadShape<K(!new)>(p: KeyPolicy<K>, geo: Geometry, s: State<K>, t: nat, s': State<K>)
    requires Lawful(p) && Shaped(p, geo, s) && t < |s.threads| && StartStep(p, geo, s, t, s')
    ensures ShapedThread(p, geo, s'.threads[t])
  {
  }

  lemma MatchingInGroup<K>(p: KeyPolicy<K>, s: State<K>, g: nat, tag: nat, groups: nat)
    requires |s.slots| == N * groups && g < groups
    ensures Matching(p, s, g, tag) != {} ==> InGroup(Matching(p, s, g, tag), g, groups)
  {
  }

  lemma CompareKeepsThreadShape<K>(p: KeyPolicy<K>, geo: Geometry, s: State<K>, t: nat, s': State<K>)
    requires Shaped(p, geo, s) && t < |s.threads| && s.threads[t].pc.Compare? && CompareStep(p, geo, s, t, s')
    requires Passes(s, t, s') && !s'.threads[t].pc.EraseLoad?
    ensures ShapedThread(p, geo, s'.threads[t])
  {
    assert ShapedThread(p, geo, s.threads[t]);
  }

  lemma ProbeKeepsThreadShape<K>(p: KeyPolicy<K>, geo: Geometry, s: State<K>, th: Thread<K>)
    requires Shaped(p, geo, s) && ShapedThread(p, geo, th) && th.pc.Probe?
    ensures var i := th.pc.step;
            var m := Matching(p, s, GroupAt(p, geo, th.key, i), Reduced(p.hash(th.key)));
            ShapedThread(p, geo, th.(pc := if m == {} then TestOverflow(i) else Await(i, m)))
  {
    MatchingInGroup(p, s, GroupAt(p, geo, th.key, th.pc.step), Reduced(p.hash(th.key)), geo.groups);
  }

  lemma LookupKeepsThreadShape<K>(p: KeyPolicy<K>, geo: Geometry, s: State<K>, t: nat, s': State<K>)
    requires Shaped(p, geo, s) && t < |s.threads| && LookupStep(p, geo, s, t, s')
    requires Passes(s, t, s') && !s'.threads[t].pc.EraseLoad?
    ensures ShapedThread(p, geo, s'.threads[t])
  {
    assert ShapedThread(p, geo, s.threads[t]);
    if s.threads[t].pc.Compare? {
      CompareKeepsThreadShape(p, geo, s, t, s');
    } else if s.threads[t].pc.Probe? {
      ProbeKeepsThreadShape(p, geo, s, s.threads[t]);
    }
  }

  lemma SweepKeepsThreadShape<K>(p: KeyPolicy<K>, geo: Geometry, s: State<K>, t: nat, s': State<K>)
    requires Shaped(p, geo, s) && t < |s.threads| && SweepStep(p, geo, s, t, s')
    requires Passes(s, t, s') && !s'.threads[t].pc.EraseLoad?
    ensures ShapedThread(p, geo, s'.threads[t])
  {
    assert ShapedThread(p, geo, s.threads[t]);
  }

  lemma ScanKeepsShape<K>(p: KeyPolicy<K>, geo: Geometry, s: State<K>, t: nat, s': State<K>)
    requires Shaped(p, geo, s) && t < |s.threads| && s.threads[t].pc.InsScan? && ScanStep(p, geo, s, t, s')
    ensures Shaped(p, geo, s')
  {
    assert ShapedThread(p, geo, s.threads[t]);
    assert ShapedThread(p, geo, s'.threads[t]);
  }

  // ----- Group locks -----

  /** Two threads inside one group: both share it. */
  ghost predicate GroupsExclusive<K>(p: KeyPolicy<K>, geo: Geometry, threads: seq<Thread<K>>) {
    && (forall t, u :: 0 <= t < |threads| && 0 <= u < |threads| && t != u
                       && 0 <= HeldGroup(p, geo, threads[t]) == HeldGroup(p, geo, threads[u]) ==>
                         !Exclusively(threads[t]) && !Exclusively(threads[u]))
    && (forall t :: 0 <= t < |threads| && threads[t].op.Erase? ==> threads[t].excl)
  }

  /** Taking a grantable lock, or keeping one held at least as exclusively, keeps groups exclusive. */
  lemma ExclusiveUpdate<K>(p: KeyPolicy<K>, geo: Geometry, s: State<K>, t: nat, th: Thread<K>)
    requires t < |s.threads| && GroupsExclusive(p, geo, s.threads)
    requires th.op.Erase? ==> th.excl
    requires var g := HeldGroup(p, geo, th);
             g >= 0 ==> || Grantable(p, geo, s, t, g, Exclusively(th))
                        || (HeldGroup(p, geo, s.threads[t]) == g && (Exclusively(th) ==> Exclusively(s.threads[t])))
    ensures GroupsExclusive(p, geo, s.threads[t := th])
  {
  }

  /** Every step of every thread. */
  lemma StepKeepsExclusion<K>(p: KeyPolicy<K>, geo: Geometry, s: State<K>, t: nat, s': State<K>)
    requires MovesOne(p, geo, s, t, s') && Asks(p, geo, s, t)
    requires GroupsExclusive(p, geo, s.threads)
    ensures GroupsExclusive(p, geo, s'.threads)
  {
    ExclusiveUpdate(p, geo, s, t, s'.threads[t]);
  }

  // ----- Slots in hand -----

  /** The slot a thread has in hand, or -1. */
  function SlotInHand(pc: PC): int {
    match pc
    case InsCount(_, x) => x
    case InsConstruct(_, x) => x
    case InsUndo(_, x) => x
    case EraseLoad(_, x, _) => x
    case EraseReset(_, x, _, _) => x
    case _ => -1
  }

  predicate InHandFor<K(==)>(p: KeyPolicy<K>, th: Thread<K>, t: nat, v: Slot<K>) {
    match th.pc
    case InsCount(_, _) => v == Reserved(p.hash(th.key), t)
    case InsConstruct(_, _) => v == Promised(th.key, th.counter, t)
    case InsUndo(_, _) => v == Reserved(p.hash(th.key), t)
    case EraseLoad(_, _, _) => v.Dead? && v.owner == t
    case EraseReset(_, _, _, _) => v.Dead? && v.owner == t
    case _ => true
  }

  /** Slots in hand and the threads that have them correspond one to one. */
  ghost predicate Hands<K>(p: KeyPolicy<K>, slots: seq<Slot<K>>, threads: seq<Thread<K>>) {
    && (forall t :: 0 <= t < |threads| && SlotInHand(threads[t].pc) >= 0 ==>
                      && SlotInHand(threads[t].pc) < |slots|
                      && InHandFor(p, threads[t], t, slots[SlotInHand(threads[t].pc)]))
    && (forall x :: 0 <= x < |slots| && slots[x].InHand() ==>
                      && slots[x].owner < |threads|
                      && SlotInHand(threads[slots[x].owner].pc) == x)
  }

  /** Thread `t` moves on and slot `x`, in its hand before or after, becomes `v`. */
  lemma HandsUpdate<K>(p: KeyPolicy<K>, slots: seq<Slot<K>>, threads: seq<Thread<K>>, t: nat, th: Thread<K>,
                       x: nat, v: Slot<K>)
    requires t < |threads| && x < |slots|
    requires Hands(p, slots, threads)
    requires SlotInHand(threads[t].pc) == -1 || SlotInHand(threads[t].pc) == x
    requires slots[x].InHand() ==> slots[x].owner == t
    requires if v.InHand() then v.owner == t && SlotInHand(th.pc) == x && InHandFor(p, th, t, v)
             else SlotInHand(th.pc) == -1
    ensures Hands(p, slots[x := v], threads[t := th])
  {
    var ts := threads[t := th];
    var ss := slots[x := v];
    forall u | 0 <= u < |ts| && SlotInHand(ts[u].pc) >= 0
      ensures SlotInHand(ts[u].pc) < |ss| && InHandFor(p, ts[u], u, ss[SlotInHand(ts[u].pc)])
    {
      if u != t {
        assert slots[SlotInHand(threads[u].pc)].owner == u;
      }
    }
  }

  lemma HandsNoSlot<K>(p: KeyPolicy<K>, slots: seq<Slot<K>>, threads: seq<Thread<K>>, t: nat, th: Thread<K>)
    requires t < |threads|
    requires Hands(p, slots, threads)
    requires SlotInHand(threads[t].pc) == SlotInHand(th.pc)
    requires SlotInHand(th.pc) >= 0 ==> InHandFor(p, th, t, slots[SlotInHand(th.pc)])
    ensures Hands(p, slots, threads[t := th])
  {
  }

  lemma SameTableKeepsHands<K>(p: KeyPolicy<K>, s: State<K>, t: nat, s': State<K>)
    requires t < |s.threads| == |s'.threads| && s'.threads == s.threads[t := s'.threads[t]] && SameTable(s, s')
    requires SlotInHand(s'.threads[t].pc) == SlotInHand(s.threads[t].pc)
    requires SlotInHand(s.threads[t].pc) >= 0 ==> s.threads[t].pc.EraseLoad? && s'.threads[t].pc.EraseReset?
    requires Hands(p, s.slots, s.threads)
    ensures Hands(p, s'.slots, s'.threads)
  {
    HandsNoSlot(p, s.slots, s.threads, t, s'.threads[t]);
  }

  lemma DestroyKeepsHands<K>(p: KeyPolicy<K>, geo: Geometry, s: State<K>, t: nat, s': State<K>)
    requires Destroys(p, geo, s, t, s') && Hands(p, s.slots, s.threads)
    ensures Hands(p, s'.slots, s'.threads)
  {
    var th := s'.threads[t];
    HandsUpdate(p, s.slots, s.threads, t, th, th.pc.slot, s'.slots[th.pc.slot]);
  }

  lemma SettleKeepsHands<K>(p: KeyPolicy<K>, geo: Geometry, s: State<K>, t: nat, s': State<K>)
    requires Settles(p, geo, s, t, s') && Hands(p, s.slots, s.threads)
    ensures Hands(p, s'.slots, s'.threads)
  {
    var x := s.threads[t].pc.slot;
    HandsUpdate(p, s.slots, s.threads, t, s'.threads[t], x, s'.slots[x]);
  }

  lemma ScanKeepsHands<K>(p: KeyPolicy<K>, geo: Geometry, s: State<K>, t: nat, s': State<K>)
    requires Shaped(p, geo, s) && t < |s.threads| && s.threads[t].pc.InsScan? && ScanStep(p, geo, s, t, s')
    requires Hands(p, s.slots, s.threads)
    ensures Hands(p, s'.slots, s'.threads)
  {
    var th := s'.threads[t];
    if th.pc.InsCount? {
      HandsUpdate(p, s.slots, s.threads, t, th, th.pc.slot, s'.slots[th.pc.slot]);
    } else {
      HandsNoSlot(p, s.slots, s.threads, t, th);
    }
  }

  lemma CountKeepsHands<K>(p: KeyPolicy<K>, geo: Geometry, s: State<K>, t: nat, s': State<K>)
    requires Counts(p, geo, s, t, s') && Hands(p, s.slots, s.threads)
    ensures Hands(p, s'.slots, s'.threads)
  {
    var th, x := s'.threads[t], s.threads[t].pc.slot;
    if th.pc.InsConstruct? {
      HandsUpdate(p, s.slots, s.threads, t, th, x, s'.slots[x]);
    } else {
      HandsNoSlot(p, s.slots, s.threads, t, th);
    }
  }

  /** A thread inside a group finds no slot of it in another's hand. */
  lemma SlotIsSettled<K>(p: KeyPolicy<K>, geo: Geometry, s: State<K>, t: nat, x: nat)
    requires Shaped(p, geo, s) && t < |s.threads| && x < |s.slots|
    requires 0 <= HeldGroup(p, geo, s.threads[t]) == GroupOf(x)
    requires GroupsExclusive(p, geo, s.threads) && Hands(p, s.slots, s.threads)
    ensures s.slots[x].InHand() ==> s.slots[x].owner == t
  {
    if s.slots[x].InHand() {
      var u := s.slots[x].owner;
      assert ShapedThread(p, geo, s.threads[u]);
    }
  }

  /** A thread comparing keys under a group lock only ever meets free or fully constructed slots. */
  lemma ComparedSlotIsSettled<K>(p: KeyPolicy<K>, geo: Geometry, s: State<K>, t: nat, x: nat)
    requires Shaped(p, geo, s) && t < |s.threads|
    requires s.threads[t].pc.Compare? && x in s.threads[t].pc.mask
    requires GroupsExclusive(p, geo, s.threads) && Hands(p, s.slots, s.threads)
    ensures x < |s.slots| && !s.slots[x].InHand()
  {
    assert ShapedThread(p, geo, s.threads[t]);
    SlotIsSettled(p, geo, s, t, x);
  }

  // ----- Sweeps -----

  ghost predicate SweptBy<K>(slots: seq<Slot<K>>, th: Thread<K>) {
    forall x :: x in MaskLeft(th.pc) ==> x < |slots| && slots[x].Live?
  }

  /** The slots a sweep still has to come to in its group hold constructed elements. */
  ghost predicate Swept<K>(s: State<K>) {
    forall t :: 0 <= t < |s.threads| ==> SweptBy(s.slots, s.threads[t])
  }

  lemma SweptKept<K>(s: State<K>, t: nat, th: Thread<K>, s': State<K>)
    requires t < |s.threads| && Swept(s)
    requires s'.slots == s.slots && s'.threads == s.threads[t := th] && SweptBy(s.slots, th)
    ensures Swept(s')
  {
    forall u | 0 <= u < |s.threads| ensures SweptBy(s'.slots, s'.threads[u]) {
      assert SweptBy(s.slots, s.threads[u]);
    }
  }

  lemma LessSwept<K>(s: State<K>, t: nat, th: Thread<K>)
    requires t < |s.threads| && Swept(s) && MaskLeft(th.pc) <= MaskLeft(s.threads[t].pc)
    ensures SweptBy(s.slots, th)
  {
    assert SweptBy(s.slots, s.threads[t]);
  }

  /** A slot of a group that `t` has locked exclusively is in nobody else's sweep. */
  lemma SweptPut<K>(p: KeyPolicy<K>, geo: Geometry, s: State<K>, t: nat, th: Thread<K>, x: nat, s': State<K>)
    requires Shaped(p, geo, s) && GroupsExclusive(p, geo, s.threads)
    requires t < |s.threads| && x < |s.slots| == |s'.slots| && Swept(s)
    requires s'.slots == s.slots[x := s'.slots[x]] && s'.threads == s.threads[t := th]
    requires HeldGroup(p, geo, s.threads[t]) == GroupOf(x) && Exclusively(s.threads[t])
    requires MaskLeft(th.pc) <= MaskLeft(s.threads[t].pc) && x !in MaskLeft(th.pc)
    ensures Swept(s')
  {
    forall u | 0 <= u < |s.threads| ensures SweptBy(s'.slots, s'.threads[u]) {
      assert SweptBy(s.slots, s.threads[u]) && ShapedThread(p, geo, s.threads[u]);
    }
  }

  lemma DestroyKeepsSwept<K>(p: KeyPolicy<K>, geo: Geometry, s: State<K>, t: nat, s': State<K>)
    requires Shaped(p, geo, s) && Destroys(p, geo, s, t, s')
    requires GroupsExclusive(p, geo, s.threads) && Swept(s)
    ensures Swept(s')
  {
    SweptPut(p, geo, s, t, s'.threads[t], s'.threads[t].pc.slot, s');
  }

  lemma ScanKeepsSwept<K>(p: KeyPolicy<K>, geo: Geometry, s: State<K>, t: nat, s': State<K>)
    requires Shaped(p, geo, s) && t < |s.threads| && s.threads[t].pc.InsScan? && ScanStep(p, geo, s, t, s')
    requires GroupsExclusive(p, geo, s.threads) && Swept(s)
    ensures Swept(s')
  {
    var th := s'.threads[t];
    if th.pc.InsPass? {
      SweptKept(s, t, th, s');
    } else {
      SweptPut(p, geo, s, t, th, th.pc.slot, s');
    }
  }

  lemma CountKeepsSwept<K>(p: KeyPolicy<K>, geo: Geometry, s: State<K>, t: nat, s': State<K>)
    requires Shaped(p, geo, s) && Counts(p, geo, s, t, s')
    requires GroupsExclusive(p, geo, s.threads) && Swept(s)
    ensures Swept(s')
  {
    SweptPut(p, geo, s, t, s'.threads[t], s.threads[t].pc.slot, s');
  }

  lemma SettleKeepsSwept<K>(p: KeyPolicy<K>, geo: Geometry, s: State<K>, t: nat, s': State<K>)
    requires Shaped(p, geo, s) && Settles(p, geo, s, t, s')
    requires GroupsExclusive(p, geo, s.threads) && Hands(p, s.slots, s.threads) && Swept(s)
    ensures Swept(s')
  {
    var pc := s.threads[t].pc;
    assert SweptBy(s.slots, s.threads[t]) && !s.slots[pc.slot].Live?;
    SweptPut(p, geo, s, t, s'.threads[t], pc.slot, s');
  }

  lemma AccountKeepsSwept<K>(p: KeyPolicy<K>, geo: Geometry, s: State<K>, t: nat, s': State<K>)
    requires Accounts(p, geo, s, t, s') && Swept(s)
    ensures Swept(s')
  {
    LessSwept(s, t, s'.threads[t]);
    SweptKept(s, t, s'.threads[t], s');
  }

  /** Whatever is occupied when a sweep has locked a group is a constructed element. */
  lemma OccupiedIsLive<K>(p: KeyPolicy<K>, geo: Geometry, s: State<K>, t: nat, x: nat)
    requires Shaped(p, geo, s) && t < |s.threads| && s.threads[t].pc.SweepScan?
    requires GroupsExclusive(p, geo, s.threads) && Hands(p, s.slots, s.threads)
    requires ShapedThread(p, geo, s.threads[t]) && x in Occupied(p, s, s.threads[t].pc.group)
    ensures x < |s.slots| && s.slots[x].Live?
  {
    SlotIsSettled(p, geo, s, t, x);
  }

  lemma SweepKeepsSweptBy<K>(p: KeyPolicy<K>, geo: Geometry, s: State<K>, t: nat, s': State<K>)
    requires Shaped(p, geo, s) && t < |s.threads| && SweepStep(p, geo, s, t, s')
    requires GroupsExclusive(p, geo, s.threads) && Hands(p, s.slots, s.threads) && Swept(s)
    requires Passes(s, t, s') && !s'.threads[t].pc.EraseLoad?
    ensures SweptBy(s.slots, s'.threads[t])
  {
    var th, th' := s.threads[t], s'.threads[t];
    assert ShapedThread(p, geo, th);
    if th.pc.SweepScan? {
      forall x | x in MaskLeft(th'.pc) ensures x < |s.slots| && s.slots[x].Live? {
        OccupiedIsLive(p, geo, s, t, x);
      }
    } else {
      SweepMovesOne(p, geo, s, t, s');
      LessSwept(s, t, th');
    }
  }

  // ----- Together -----

  /** Everything in range, groups locked, slots in the hands they should be in. */
  ghost predicate Safe<K>(p: KeyPolicy<K>, geo: Geometry, s: State<K>) {
    Shaped(p, geo, s) && GroupsExclusive(p, geo, s.threads) && Hands(p, s.slots, s.threads) && Swept(s)
  }

  lemma DestroyKeepsSafe<K>(p: KeyPolicy<K>, geo: Geometry, s: State<K>, t: nat, s': State<K>)
    requires Safe(p, geo, s) && Destroys(p, geo, s, t, s') && MovesOne(p, geo, s, t, s') && Asks(p, geo, s, t)
    ensures Safe(p, geo, s')
  {
    DestroyKeepsThreadShape(p, geo, s, t, s');
    ShapeKept(p, geo, s, t, s');
    StepKeepsExclusion(p, geo, s, t, s');
    DestroyKeepsHands(p, geo, s, t, s');
    DestroyKeepsSwept(p, geo, s, t, s');
  }

  lemma AccountKeepsSafe<K>(p: KeyPolicy<K>, geo: Geometry, s: State<K>, t: nat, s': State<K>)
    requires Safe(p, geo, s) && Accounts(p, geo, s, t, s') && Asks(p, geo, s, t)
    ensures Safe(p, geo, s')
  {
    FlowsShaped(p, geo, s, t, s');
    StepKeepsExclusion(p, geo, s, t, s');
    SameTableKeepsHands(p, s, t, s');
    AccountKeepsSwept(p, geo, s, t, s');
  }

  lemma ScanKeepsSafe<K>(p: KeyPolicy<K>, geo: Geometry, s: State<K>, t: nat, s': State<K>)
    requires Safe(p, geo, s) && t < |s.threads| && s.threads[t].pc.InsScan? && ScanStep(p, geo, s, t, s')
    requires MovesOne(p, geo, s, t, s') && Asks(p, geo, s, t)
    ensures Safe(p, geo, s')
  {
    ScanKeepsShape(p, geo, s, t, s');
    StepKeepsExclusion(p, geo, s, t, s');
    ScanKeepsHands(p, geo, s, t, s');
    ScanKeepsSwept(p, geo, s, t, s');
  }

  lemma CountKeepsSafe<K>(p: KeyPolicy<K>, geo: Geometry, s: State<K>, t: nat, s': State<K>)
    requires Safe(p, geo, s) && Counts(p, geo, s, t, s') && MovesOne(p, geo, s, t, s') && Asks(p, geo, s, t)
    ensures Safe(p, geo, s')
  {
    FlowsShaped(p, geo, s, t, s');
    StepKeepsExclusion(p, geo, s, t, s');
    CountKeepsHands(p, geo, s, t, s');
    CountKeepsSwept(p, geo, s, t, s');
  }

  lemma SettleKeepsSafe<K>(p: KeyPolicy<K>, geo: Geometry, s: State<K>, t: nat, s': State<K>)
    requires Safe(p, geo, s) && Settles(p, geo, s, t, s') && Asks(p, geo, s, t)
    ensures Safe(p, geo, s')
  {
    FlowsShaped(p, geo, s, t, s');
    StepKeepsExclusion(p, geo, s, t, s');
    SettleKeepsHands(p, geo, s, t, s');
    SettleKeepsSwept(p, geo, s, t, s');
  }
}
