/** The two size counters of the concurrent table, updated in separate atomic steps, never disagree for long. */
module ConcurrentSizes {
  import opened SizePolicy
  import opened Keys
  import opened Probing
  import opened Counting
  import opened ConcurrentTable
  import opened ConcurrentSteps
  import opened ConcurrentSafety

  function LiveWeight<K>(v: Slot<K>): int {
    if v.Live? then 1 else 0
  }

  function OccupiedWeight<K>(v: Slot<K>): int {
    if v.Free? || v.Sentinel? then 0 else 1
  }

  predicate Inserting(pc: PC) {
    pc.InsLock? || pc.InsScan? || pc.InsPass? || pc.InsCount? || pc.InsConstruct? || pc.InsUndo?
  }

  /** The thread accounts for one unit of the size counter besides the live elements. */
  function SizeWeight<K>(th: Thread<K>): int {
    var pc := th.pc;
    if pc.TestSize? || pc.Reject? || Inserting(pc) || pc.InsRelease? || pc.InsGiveBack?
       || pc.EraseLoad? || pc.EraseReset? || pc.EraseSize?
    then 1 else 0
  }

  /** Reservations granted and not yet turned into an element or given back. */
  function GrantWeight<K>(th: Thread<K>): int {
    if Inserting(th.pc) || th.pc.InsRelease? || th.pc.InsGiveBack? then 1 else 0
  }

  /** A reservation that was granted, or would be at load `ml`, or an erasure still to be paid for. */
  function ClaimWeight<K>(ml: int, th: Thread<K>): int {
    match th.pc
    case TestSize(c) => if c <= ml then 1 else 0
    case EraseLoad(_, _, _) => 1
    case EraseReset(_, _, lowered, _) => if lowered then 0 else 1
    case _ => GrantWeight(th)
  }

  function HandWeight<K>(th: Thread<K>): int {
    if SlotInHand(th.pc) >= 0 then 1 else 0
  }

  /** The maximum load was lowered for a slot that is still occupied. */
  function LoweredWeight<K>(th: Thread<K>): int {
    if th.pc.EraseReset? && th.pc.lowered then 1 else 0
  }

  /** Granted reservations whose thread has no slot yet. */
  function SeekerWeight<K>(th: Thread<K>): int {
    if th.pc.InsLock? || th.pc.InsScan? || th.pc.InsPass? then 1 else 0
  }

  ghost function LiveCount<K>(s: State<K>): int { Total(s.slots, LiveWeight) }

  ghost function OccupiedCount<K>(s: State<K>): int { Total(s.slots, OccupiedWeight) }

  ghost function Claims<K>(threads: seq<Thread<K>>, ml: int): int {
    Total(threads, th => ClaimWeight(ml, th))
  }

  ghost predicate Sized<K>(geo: Geometry, s: State<K>) {
    && s.size == LiveCount(s) + Total(s.threads, SizeWeight)
    && LiveCount(s) + Claims(s.threads, s.ml) <= s.ml
    && OccupiedCount(s) == LiveCount(s) + Total(s.threads, HandWeight)
    && s.ml + Total(s.threads, LoweredWeight) <= N * geo.groups - 1
  }

  lemma ClaimsCounted<K>(threads: seq<Thread<K>>, ml: int)
    ensures 0 <= Claims(threads, ml) <= Total(threads, SizeWeight)
  {
    TotalAtMost(threads, th => ClaimWeight(ml, th), SizeWeight);
    TotalAtLeast(threads, th => ClaimWeight(ml, th), 0);
  }

  lemma ClaimsShrink<K>(threads: seq<Thread<K>>, a: int, b: int)
    requires a <= b
    ensures Claims(threads, a) <= Claims(threads, b)
  {
    TotalAtMost(threads, th => ClaimWeight(a, th), th => ClaimWeight(b, th));
  }

  /** The totals over threads after thread `t` moves on. */
  lemma ThreadTotals<K>(threads: seq<Thread<K>>, t: nat, th: Thread<K>, ml: int)
    requires t < |threads|
    ensures var ts := threads[t := th];
            && Total(ts, SizeWeight) == Total(threads, SizeWeight) - SizeWeight(threads[t]) + SizeWeight(th)
            && Claims(ts, ml) == Claims(threads, ml) - ClaimWeight(ml, threads[t]) + ClaimWeight(ml, th)
            && Total(ts, HandWeight) == Total(threads, HandWeight) - HandWeight(threads[t]) + HandWeight(th)
            && Total(ts, LoweredWeight)
               == Total(threads, LoweredWeight) - LoweredWeight(threads[t]) + LoweredWeight(th)
  {
    TotalUpdate(threads, SizeWeight, t, th);
    TotalUpdate(threads, th => ClaimWeight(ml, th), t, th);
    TotalUpdate(threads, HandWeight, t, th);
    TotalUpdate(threads, LoweredWeight, t, th);
  }

  /** Thread `t` goes on as `th` and the counters change by what it accounts for. */
  ghost predicate Balanced<K>(s: State<K>, t: nat, th: Thread<K>, size: int, ml: int)
    requires t < |s.threads|
  {
    && size == s.size - SizeWeight(s.threads[t]) + SizeWeight(th)
    && HandWeight(th) == HandWeight(s.threads[t])
    && ml + LoweredWeight(th) == s.ml + LoweredWeight(s.threads[t])
    && ml <= s.ml
    && (|| ClaimWeight(s.ml, th) - ClaimWeight(s.ml, s.threads[t]) <= ml - s.ml
        || (s.threads[t].pc.ReserveSize? && th.pc == TestSize(s.size + 1) && ml == s.ml))
  }

  /** Thread `t` moves on, the counters change, the slots do not. */
  lemma SizedKept<K>(geo: Geometry, s: State<K>, t: nat, th: Thread<K>, s': State<K>)
    requires t < |s.threads| && Sized(geo, s)
    requires s'.slots == s.slots && s'.threads == s.threads[t := th]
    requires Balanced(s, t, th, s'.size, s'.ml)
    ensures Sized(geo, s')
  {
    ThreadTotals(s.threads, t, th, s.ml);
    ClaimsShrink(s'.threads, s'.ml, s.ml);
    ClaimsCounted(s.threads, s.ml);
  }

  /** Thread `t` moves on and slot `x` changes, the maximum load does not. */
  lemma SizedPut<K>(geo: Geometry, s: State<K>, t: nat, th: Thread<K>, x: nat, s': State<K>)
    requires t < |s.threads| && x < |s.slots| == |s'.slots| && Sized(geo, s)
    requires s'.slots == s.slots[x := s'.slots[x]] && s'.threads == s.threads[t := th] && s'.ml == s.ml
    requires s'.size == s.size
    requires LiveWeight(s'.slots[x]) + SizeWeight(th) == LiveWeight(s.slots[x]) + SizeWeight(s.threads[t])
    requires OccupiedWeight(s'.slots[x]) - LiveWeight(s'.slots[x]) - HandWeight(th)
          == OccupiedWeight(s.slots[x]) - LiveWeight(s.slots[x]) - HandWeight(s.threads[t])
    requires LiveWeight(s'.slots[x]) + ClaimWeight(s.ml, th)
          <= LiveWeight(s.slots[x]) + ClaimWeight(s.ml, s.threads[t])
    requires LoweredWeight(th) <= LoweredWeight(s.threads[t])
    ensures Sized(geo, s')
  {
    ThreadTotals(s.threads, t, th, s.ml);
    TotalUpdate(s.slots, LiveWeight, x, s'.slots[x]);
    TotalUpdate(s.slots, OccupiedWeight, x, s'.slots[x]);
  }

  lemma UnburdenedWeighsNothing<K>(th: Thread<K>, ml: int)
    requires Unburdened(th.pc)
    ensures SizeWeight(th) == ClaimWeight(ml, th) == HandWeight(th) == LoweredWeight(th) == 0
  {
  }

  lemma PassKeepsSized<K>(geo: Geometry, s: State<K>, t: nat, s': State<K>)
    requires Passes(s, t, s') && Unburdened(s.threads[t].pc) && Unburdened(s'.threads[t].pc)
    requires Sized(geo, s)
    ensures Sized(geo, s')
  {
    UnburdenedWeighsNothing(s.threads[t], s.ml);
    UnburdenedWeighsNothing(s'.threads[t], s.ml);
    SizedKept(geo, s, t, s'.threads[t], s');
  }

  lemma DestroyKeepsSized<K>(p: KeyPolicy<K>, geo: Geometry, s: State<K>, t: nat, s': State<K>)
    requires Destroys(p, geo, s, t, s') && Sized(geo, s)
    ensures Sized(geo, s')
  {
    SizedPut(geo, s, t, s'.threads[t], s'.threads[t].pc.slot, s');
  }

  lemma AccountsBalance<K>(s: State<K>, t: nat, th: Thread<K>, size: int, ml: int)
    requires t < |s.threads| && Flows(s.threads[t].op, s.threads[t].pc, th.pc)
    requires Reckons(s.threads[t].pc, th.pc, s.size, size, s.ml, ml)
    ensures Balanced(s, t, th, size, ml)
  {
  }

  lemma AccountKeepsSized<K>(p: KeyPolicy<K>, geo: Geometry, s: State<K>, t: nat, s': State<K>)
    requires Accounts(p, geo, s, t, s') && Sized(geo, s)
    ensures Sized(geo, s')
  {
    AccountsBalance(s, t, s'.threads[t], s'.size, s'.ml);
    SizedKept(geo, s, t, s'.threads[t], s');
  }

  lemma ReserveKeepsSized<K>(p: KeyPolicy<K>, geo: Geometry, s: State<K>, t: nat, s': State<K>)
    requires Shaped(p, geo, s) && t < |s.threads| && ReserveStep(p, geo, s, t, s')
    requires Sized(geo, s)
    ensures Sized(geo, s')
  {
    ReserveAccounts(p, geo, s, t, s');
    AccountKeepsSized(p, geo, s, t, s');
  }

  lemma ScanKeepsSized<K>(geo: Geometry, s: State<K>, t: nat, s': State<K>)
    requires Scans(s, t, s') && Sized(geo, s)
    ensures Sized(geo, s')
  {
    var th' := s'.threads[t];
    if th'.pc.InsPass? {
      SizedKept(geo, s, t, th', s');
    } else {
      SizedPut(geo, s, t, th', th'.pc.slot, s');
    }
  }

  lemma CountKeepsSized<K>(p: KeyPolicy<K>, geo: Geometry, s: State<K>, t: nat, s': State<K>)
    requires Counts(p, geo, s, t, s') && Hands(p, s.slots, s.threads)
    requires Sized(geo, s)
    ensures Sized(geo, s')
  {
    var x := s.threads[t].pc.slot;
    assert s.slots[x].Reserved? && (s'.slots[x].Reserved? || s'.slots[x].Promised?);
    SizedPut(geo, s, t, s'.threads[t], x, s');
  }

  lemma SettleKeepsSized<K>(p: KeyPolicy<K>, geo: Geometry, s: State<K>, t: nat, s': State<K>)
    requires Settles(p, geo, s, t, s') && Hands(p, s.slots, s.threads)
    requires Sized(geo, s)
    ensures Sized(geo, s')
  {
    var x := s.threads[t].pc.slot;
    assert s.slots[x].InHand();
    SizedPut(geo, s, t, s'.threads[t], x, s');
  }

  lemma EraseKeepsSized<K>(p: KeyPolicy<K>, geo: Geometry, s: State<K>, t: nat, s': State<K>)
    requires Shaped(p, geo, s) && t < |s.threads| && EraseStep(p, geo, s, t, s')
    requires Sized(geo, s) && Hands(p, s.slots, s.threads)
    ensures Sized(geo, s')
  {
    if s.threads[t].pc.EraseReset? {
      EraseSettles(p, geo, s, t, s');
      SettleKeepsSized(p, geo, s, t, s');
    } else {
      EraseAccounts(p, geo, s, t, s');
      AccountKeepsSized(p, geo, s, t, s');
    }
  }

  // ----- What the counters guarantee -----

  /** Live elements and granted reservations together never exceed the maximum load, nor do the counters underflow. */
  lemma LoadIsRespected<K>(geo: Geometry, s: State<K>)
    requires Sized(geo, s)
    ensures LiveCount(s) + Total(s.threads, GrantWeight) <= s.ml <= N * geo.groups - 1
    ensures 0 <= LiveCount(s) <= s.size && 0 <= s.ml
  {
    TotalAtMost(s.threads, GrantWeight, th => ClaimWeight(s.ml, th));
    TotalAtLeast(s.threads, GrantWeight, 0);
    TotalAtLeast(s.threads, LoweredWeight, 0);
    TotalAtLeast(s.threads, SizeWeight, 0);
    TotalAtLeast(s.slots, LiveWeight, 0);
  }

  /** A step about to lower a counter finds it positive. */
  lemma CountersArePositive<K>(geo: Geometry, s: State<K>, t: nat)
    requires Sized(geo, s) && t < |s.threads|
    ensures s.threads[t].pc.EraseLoad? ==> s.ml >= 1
    ensures s.threads[t].pc.Reject? || s.threads[t].pc.InsGiveBack? || s.threads[t].pc.EraseSize? ==> s.size >= 1
  {
    TotalAtLeast(s.slots, LiveWeight, 0);
    TotalCovers(s.threads, SizeWeight, t);
    TotalCovers(s.threads, th => ClaimWeight(s.ml, th), t);
  }

  function FreeWeight<K>(v: Slot<K>): int {
    if v.Free? then 1 else 0
  }

  function SentinelWeight<K>(v: Slot<K>): int {
    if v.Sentinel? then 1 else 0
  }

  lemma {:induction false} SlotsPartition<K>(slots: seq<Slot<K>>)
    ensures Total(slots, FreeWeight) + Total(slots, SentinelWeight) + Total(slots, OccupiedWeight) == |slots|
  {
    if slots != [] {
      SlotsPartition(slots[..|slots| - 1]);
    }
  }

  /** There are at least as many free slots as threads whose reservation was granted and that have none yet. */
  lemma FreeSlotsSuffice<K>(geo: Geometry, s: State<K>)
    requires Sized(geo, s) && |s.slots| == N * geo.groups && Total(s.slots, SentinelWeight) == 1
    ensures Total(s.slots, FreeWeight) >= Total(s.threads, SeekerWeight)
  {
    SlotsPartition(s.slots);
    TotalBalance(s.threads, s.ml);
  }

  /** A thread with a slot in hand is a claim or occupies a slot the load was lowered for; a seeker is another claim. */
  lemma {:induction false} TotalBalance<K>(threads: seq<Thread<K>>, ml: int)
    ensures Total(threads, HandWeight) + Total(threads, SeekerWeight)
         <= Claims(threads, ml) + Total(threads, LoweredWeight)
  {
    if threads != [] {
      TotalBalance(threads[..|threads| - 1], ml);
    }
  }
}
