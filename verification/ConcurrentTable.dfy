/**
 The concurrent table between two rehashes, as an interleaving of atomic steps of any number of
 threads that insert, visit and erase single keys, or sweep over all elements. Shared state is what
 the source shares: slot metadata and elements, overflow bytes, per-group insertion counters, and
 the two size counters.
 A group lock is held exactly by the threads whose program counter lies inside its scope.
 */
module ConcurrentTable {
  import opened SizePolicy
  import opened Keys
  import opened Probing

  /**
   What a slot holds. Reserved, Promised and Dead slots are in the hands of the thread `owner`:
   metadata set but counter not yet checked; counter checked but element not yet constructed;
   element destroyed but metadata not yet reset. `ticket` is the insertion counter value the
   inserting thread consumed (negative for elements older than the counters).
   */
  datatype Slot<K> =
    | Free
    | Sentinel
    | Reserved(hash: nat, owner: nat)
    | Promised(key: K, ticket: int, owner: nat)
    | Live(key: K, ticket: int)
    | Dead(hash: nat, owner: nat)
  {
    predicate HasKey() { Promised? || Live? }
    predicate InHand() { Reserved? || Promised? || Dead? }
  }

  /** The metadata byte of a slot: 0 is available, 1 the sentinel. */
  function Tag<K>(p: KeyPolicy<K>, s: Slot<K>): nat {
    match s
    case Free => 0
    case Sentinel => 1
    case Reserved(h, _) => Reduced(h)
    case Promised(k, _, _) => Reduced(p.hash(k))
    case Live(k, _) => Reduced(p.hash(k))
    case Dead(h, _) => Reduced(h)
  }

  /** `accepts` is what the condition of an erasure says of the element it meets; without a condition it is true. */
  datatype Op = Insert | Visit | Erase(accepts: bool) | Sweep

  /** What follows the recovery of an erased slot: the operation ends, or a sweep goes on with `mask`. */
  datatype Rest = Nothing | More(mask: set<nat>)

  /** Program counter: the atomic step a thread takes next. */
  datatype PC =
    | Done(result: int)                     // no operation in progress
    | Begin                                 // read the insertion counter of the home group
    | Probe(step: nat)                      // match the reduced hash, without a lock
    | Await(step: nat, mask: set<nat>)      // acquire the group lock for the matched slots
    | Compare(step: nat, mask: set<nat>)    // locked: compare the lowest matched slot
    | TestOverflow(step: nat)
    | ReserveSize
    | TestSize(claim: int)
    | Reject                                // give the size back and report a full table
    | InsLock(step: nat)
    | InsScan(step: nat)                    // locked: look for an available slot
    | InsPass(step: nat)                    // locked: no slot here, overflow marked
    | InsCount(step: nat, slot: nat)        // locked: slot reserved, check the counter
    | InsConstruct(step: nat, slot: nat)
    | InsUndo(step: nat, slot: nat)         // locked: counter had moved, free the slot
    | InsRelease(step: nat)                 // locked: slot freed
    | InsGiveBack                           // give the size back and start over
    | EraseLoad(group: nat, slot: nat, rest: Rest)  // locked: element destroyed, adjust the maximum load
    | EraseReset(group: nat, slot: nat, lowered: bool, rest: Rest)
    | EraseSize(group: nat, rest: Rest)
    | Unlock(group: nat, excl: bool, result: int)
    | SweepLock(group: nat)
    | SweepScan(group: nat)                 // locked: find the occupied slots
    | SweepNext(group: nat, mask: set<nat>) // locked: call the function on the lowest slot left

  /** `excl` is the group access mode lookups use; `counter` the value read at Begin. */
  datatype Thread<K> = Thread(op: Op, key: K, excl: bool, counter: int, pc: PC)

  datatype State<K> = State(
    slots: seq<Slot<K>>,        // slot n of group g is at 15 * g + n
    over: seq<seq<bool>>,       // overflow bits of each group
    cnt: seq<nat>,              // insertion counter of each group
    ml: int,
    size: int,
    threads: seq<Thread<K>>)

  function GroupOf(slot: nat): nat { slot / N }

  /** The group a thread probes at `step`. */
  function GroupAt<K>(p: KeyPolicy<K>, geo: Geometry, k: K, step: nat): nat {
    Probed(geo, p.hash(k), step)
  }

  function Home<K>(p: KeyPolicy<K>, geo: Geometry, k: K): nat {
    geo.home(p.hash(k))
  }

  /** The group a thread has locked, or -1. */
  function HeldGroup<K>(p: KeyPolicy<K>, geo: Geometry, th: Thread<K>): int {
    match th.pc
    case Compare(i, _) => GroupAt(p, geo, th.key, i)
    case InsScan(i) => GroupAt(p, geo, th.key, i)
    case InsPass(i) => GroupAt(p, geo, th.key, i)
    case InsCount(i, _) => GroupAt(p, geo, th.key, i)
    case InsConstruct(i, _) => GroupAt(p, geo, th.key, i)
    case InsUndo(i, _) => GroupAt(p, geo, th.key, i)
    case InsRelease(i) => GroupAt(p, geo, th.key, i)
    case EraseLoad(g, _, _) => g
    case EraseReset(g, _, _, _) => g
    case EraseSize(g, _) => g
    case Unlock(g, _, _) => g
    case SweepScan(g) => g
    case SweepNext(g, _) => g
    case _ => -1
  }

  /** Whether a lock held is held exclusively. */
  predicate Exclusively<K>(th: Thread<K>) {
    match th.pc
    case Compare(_, _) => th.excl
    case SweepScan(_) => th.excl
    case SweepNext(_, _) => th.excl
    case Unlock(_, e, _) => e
    case _ => true
  }

  /** The group lock of `g` can be granted to thread `t`. */
  predicate Grantable<K>(p: KeyPolicy<K>, geo: Geometry, s: State<K>, t: nat, g: nat, excl: bool) {
    forall u :: 0 <= u < |s.threads| && u != t && HeldGroup(p, geo, s.threads[u]) == g ==>
                  !excl && !Exclusively(s.threads[u])
  }

  /** Slots of group `g` whose metadata equals `tag`. */
  function Matching<K>(p: KeyPolicy<K>, s: State<K>, g: nat, tag: nat): set<nat>
    requires N * g + N <= |s.slots|
  {
    set x: nat | N * g <= x < N * g + N && Tag(p, s.slots[x]) == tag
  }

  /** Slots of group `g` that are occupied, without the sentinel. */
  function Occupied<K>(p: KeyPolicy<K>, s: State<K>, g: nat): set<nat>
    requires N * g + N <= |s.slots|
  {
    set x: nat | N * g <= x < N * g + N && Tag(p, s.slots[x]) > 1
  }

  predicate Lowest(x: nat, xs: set<nat>) {
    x in xs && forall y :: y in xs ==> x <= y
  }

  function At<K>(s: State<K>, t: nat, pc: PC): State<K>
    requires t < |s.threads|
  {
    s.(threads := s.threads[t := s.threads[t].(pc := pc)])
  }

  function Put<K>(s: State<K>, x: nat, v: Slot<K>): State<K>
    requires x < |s.slots|
  {
    s.(slots := s.slots[x := v])
  }

  ghost predicate AllDone<K>(threads: seq<Thread<K>>) {
    forall t :: 0 <= t < |threads| ==> threads[t].pc.Done?
  }

  /** Where a lookup that found no equal key goes next. */
  function Miss(op: Op): PC {
    if op.Insert? then ReserveSize else Done(0)
  }

  /** Lengths fit the groups and every index a program counter carries is in range. */
  ghost predicate Shaped<K>(p: KeyPolicy<K>, geo: Geometry, s: State<K>) {
    && Regular(geo)
    && |s.slots| == N * geo.groups
    && |s.over| == |s.cnt| == geo.groups
    && (forall g :: 0 <= g < |s.over| ==> |s.over[g]| == 8)
    && (forall t :: 0 <= t < |s.threads| ==> ShapedThread(p, geo, s.threads[t]))
  }

  ghost predicate ShapedThread<K>(p: KeyPolicy<K>, geo: Geometry, th: Thread<K>)
  {
    && Home(p, geo, th.key) < geo.groups
    && match th.pc
       case Probe(i) => i < geo.groups
       case Await(i, m) => i < geo.groups && InGroup(m, GroupAt(p, geo, th.key, i), geo.groups)
       case Compare(i, m) => i < geo.groups && InGroup(m, GroupAt(p, geo, th.key, i), geo.groups)
       case TestOverflow(i) => i < geo.groups
       case InsCount(i, x) => x < N * geo.groups && GroupOf(x) == GroupAt(p, geo, th.key, i)
       case InsConstruct(i, x) => x < N * geo.groups && GroupOf(x) == GroupAt(p, geo, th.key, i)
       case InsUndo(i, x) => x < N * geo.groups && GroupOf(x) == GroupAt(p, geo, th.key, i)
       case EraseLoad(g, x, rest) =>
         g < geo.groups && x < N * geo.groups && GroupOf(x) == g && RestIn(rest, g, geo.groups)
       case EraseReset(g, x, _, rest) =>
         g < geo.groups && x < N * geo.groups && GroupOf(x) == g && RestIn(rest, g, geo.groups)
       case EraseSize(g, rest) => g < geo.groups && RestIn(rest, g, geo.groups)
       case SweepLock(g) => g < geo.groups
       case SweepScan(g) => g < geo.groups
       case SweepNext(g, m) => g < geo.groups && Within(m, g, geo.groups)
       case _ => true
  }

  ghost predicate InGroup(m: set<nat>, g: nat, groups: nat) {
    m != {} && Within(m, g, groups)
  }

  ghost predicate Within(m: set<nat>, g: nat, groups: nat) {
    forall x :: x in m ==> x < N * groups && GroupOf(x) == g
  }

  ghost predicate RestIn(rest: Rest, g: nat, groups: nat) {
    rest.More? ==> Within(rest.mask, g, groups)
  }

  /** A lookup ends at a clear overflow bit, or after as many groups as there are. */
  ghost predicate Misses<K>(p: KeyPolicy<K>, geo: Geometry, s: State<K>, th: Thread<K>)
    requires Shaped(p, geo, s) && th.pc.TestOverflow?
  {
    || !OverBit(s.over, GroupAt(p, geo, th.key, th.pc.step), p.hash(th.key))
    || th.pc.step + 1 >= geo.groups
  }

  /** What an operation reports that found an equal key and leaves it there. */
  function HitResult(op: Op): int {
    if op.Insert? || op.Erase? then 0 else 1
  }

  /** Starting an operation. */
  ghost predicate StartStep<K>(p: KeyPolicy<K>, geo: Geometry, s: State<K>, t: nat, s': State<K>)
    requires Shaped(p, geo, s) && t < |s.threads|
  {
    && s.threads[t].pc.Done?
    && |s'.threads| == |s.threads|
    && var th := s'.threads[t];
       && th.pc == Begin
       && (th.op.Erase? ==> th.excl)
       && s' == s.(threads := s.threads[t := th])
  }

  /** Comparing the lowest matched slot, under the group lock. */
  ghost predicate CompareStep<K>(p: KeyPolicy<K>, geo: Geometry, s: State<K>, t: nat, s': State<K>)
    requires Shaped(p, geo, s) && t < |s.threads| && s.threads[t].pc.Compare?
  {
    var th, Compare(i, m) := s.threads[t], s.threads[t].pc;
    var g := GroupAt(p, geo, th.key, i);
    exists x: nat :: Lowest(x, m) && x < |s.slots| &&
      if s.slots[x].Live? && p.eq(th.key, s.slots[x].key) then
        if th.op.Erase? && th.op.accepts then
          s' == At(Put(s, x, Dead(p.hash(s.slots[x].key), t)), t, EraseLoad(g, x, Nothing))
        else
          s' == At(s, t, Unlock(g, th.excl, HitResult(th.op)))
      else
        s' == At(s, t, if m - {x} == {} then TestOverflow(i) else Compare(i, m - {x}))
  }

  /** The lookup shared by all operations. */
  ghost predicate LookupStep<K>(p: KeyPolicy<K>, geo: Geometry, s: State<K>, t: nat, s': State<K>)
    requires Shaped(p, geo, s) && t < |s.threads|
  {
    var th := s.threads[t];
    match th.pc
    case Begin =>
      s' == s.(threads := s.threads[t := th.(counter := s.cnt[Home(p, geo, th.key)],
                                             pc := if th.op.Sweep? then SweepLock(0) else Probe(0))])
    case Probe(i) =>
      var m := Matching(p, s, GroupAt(p, geo, th.key, i), Reduced(p.hash(th.key)));
      s' == At(s, t, if m == {} then TestOverflow(i) else Await(i, m))
    case Await(i, m) =>
      && Grantable(p, geo, s, t, GroupAt(p, geo, th.key, i), th.excl)
      && s' == At(s, t, Compare(i, m))
    case Compare(_, _) => CompareStep(p, geo, s, t, s')
    case TestOverflow(i) => s' == At(s, t, if Misses(p, geo, s, th) then Miss(th.op) else Probe(i + 1))
    case Unlock(_, _, r) => s' == At(s, t, Done(r))
    case _ => false
  }

  /** The insertion steps that touch at most the size counter. */
  ghost predicate ReserveStep<K>(p: KeyPolicy<K>, geo: Geometry, s: State<K>, t: nat, s': State<K>)
    requires Shaped(p, geo, s) && t < |s.threads|
  {
    var th := s.threads[t];
    match th.pc
    case ReserveSize => s' == At(s.(size := s.size + 1), t, TestSize(s.size + 1))
    case TestSize(c) => s' == At(s, t, if c <= s.ml then InsLock(0) else Reject)
    case Reject => s' == At(s.(size := s.size - 1), t, Done(-1))
    case InsLock(i) =>
      && Grantable(p, geo, s, t, GroupAt(p, geo, th.key, i), true)
      && s' == At(s, t, InsScan(i))
    case InsPass(i) => s' == At(s, t, InsLock(i + 1))
    case InsRelease(_) => s' == At(s, t, InsGiveBack)
    case InsGiveBack => s' == At(s.(size := s.size - 1), t, Begin)
    case _ => false
  }

  /** Reserving the lowest available slot, or marking the overflow of a full group. */
  ghost predicate ScanStep<K>(p: KeyPolicy<K>, geo: Geometry, s: State<K>, t: nat, s': State<K>)
    requires Shaped(p, geo, s) && t < |s.threads| && s.threads[t].pc.InsScan?
  {
    var th, i := s.threads[t], s.threads[t].pc.step;
    var g, h := GroupAt(p, geo, th.key, i), p.hash(th.key);
    var m := Matching(p, s, g, 0);
    if m == {} then
      s' == At(s.(over := s.over[g := s.over[g][h % 8 := true]]), t, InsPass(i))
    else
      exists x: nat :: Lowest(x, m) && x < |s.slots| && s' == At(Put(s, x, Reserved(h, t)), t, InsCount(i, x))
  }

  /** The counter check: read the counter, increment it, and go on if it had not moved since Begin. */
  ghost predicate CountStep<K>(p: KeyPolicy<K>, geo: Geometry, s: State<K>, t: nat, s': State<K>)
    requires Shaped(p, geo, s) && t < |s.threads| && s.threads[t].pc.InsCount?
  {
    var th, InsCount(i, x) := s.threads[t], s.threads[t].pc;
    var home := Home(p, geo, th.key);
    assert ShapedThread(p, geo, th);
    var bumped := s.(cnt := s.cnt[home := s.cnt[home] + 1]);
    if s.cnt[home] != th.counter then
      s' == At(bumped, t, InsUndo(i, x))
    else
      s' == At(Put(bumped, x, Promised(th.key, s.cnt[home], t)), t, InsConstruct(i, x))
  }

  /** Slot reservation, counter check, and construction or withdrawal. */
  ghost predicate InsertStep<K>(p: KeyPolicy<K>, geo: Geometry, s: State<K>, t: nat, s': State<K>)
    requires Shaped(p, geo, s) && t < |s.threads|
  {
    var th := s.threads[t];
    assert ShapedThread(p, geo, th);
    match th.pc
    case InsScan(_) => ScanStep(p, geo, s, t, s')
    case InsCount(_, _) => CountStep(p, geo, s, t, s')
    case InsConstruct(i, x) =>
      && s.slots[x].Promised?
      && s' == At(Put(s, x, Live(s.slots[x].key, s.slots[x].ticket)), t, Unlock(GroupAt(p, geo, th.key, i), true, 1))
    case InsUndo(i, x) => s' == At(Put(s, x, Free), t, InsRelease(i))
    case _ => false
  }

  /** Recovery of an erased slot: maximum load, metadata, size, in that order. */
  ghost predicate EraseStep<K>(p: KeyPolicy<K>, geo: Geometry, s: State<K>, t: nat, s': State<K>)
    requires Shaped(p, geo, s) && t < |s.threads|
  {
    assert ShapedThread(p, geo, s.threads[t]);
    match s.threads[t].pc
    case EraseLoad(g, x, rest) =>
      var lower := s.over[g][Tag(p, s.slots[x]) % 8];
      s' == At(s.(ml := if lower then s.ml - 1 else s.ml), t, EraseReset(g, x, lower, rest))
    case EraseReset(g, x, _, rest) => s' == At(Put(s, x, Free), t, EraseSize(g, rest))
    case EraseSize(g, rest) =>
      s' == At(s.(size := s.size - 1), t, if rest.More? then SweepNext(g, rest.mask) else Unlock(g, true, 1))
    case _ => false
  }

  /** The function a walk calls on its next element may have it erased, if access is exclusive, or end the walk. */
  ghost predicate CallOn<K>(p: KeyPolicy<K>, s: State<K>, t: nat, x: nat, s': State<K>)
    requires t < |s.threads| && s.threads[t].pc.SweepNext? && x < |s.slots| && s.slots[x].Live?
  {
    var SweepNext(g, m) := s.threads[t].pc;
    || s' == At(s, t, SweepNext(g, m - {x}))
    || s' == At(s, t, Done(0))
    || (s.threads[t].excl && s' == At(Put(s, x, Dead(p.hash(s.slots[x].key), t)), t, EraseLoad(g, x, More(m - {x}))))
  }

  /** The walk over all elements: lock a group, call the function on each element it holds, go on to the next group. */
  ghost predicate SweepStep<K>(p: KeyPolicy<K>, geo: Geometry, s: State<K>, t: nat, s': State<K>)
    requires Shaped(p, geo, s) && t < |s.threads|
  {
    var th := s.threads[t];
    assert ShapedThread(p, geo, th);
    match th.pc
    case SweepLock(g) => Grantable(p, geo, s, t, g, th.excl) && s' == At(s, t, SweepScan(g))
    case SweepScan(g) => s' == At(s, t, SweepNext(g, Occupied(p, s, g)))
    case SweepNext(g, m) =>
      if m == {} then
        s' == At(s, t, if g + 1 < geo.groups then SweepLock(g + 1) else Done(0))
      else
        exists x: nat :: Lowest(x, m) && x < |s.slots| && s.slots[x].Live? && CallOn(p, s, t, x, s')
    case _ => false
  }

  ghost predicate Step<K>(p: KeyPolicy<K>, geo: Geometry, s: State<K>, t: nat, s': State<K>)
    requires Shaped(p, geo, s) && t < |s.threads|
  {
    || StartStep(p, geo, s, t, s')
    || LookupStep(p, geo, s, t, s')
    || ReserveStep(p, geo, s, t, s')
    || InsertStep(p, geo, s, t, s')
    || EraseStep(p, geo, s, t, s')
    || SweepStep(p, geo, s, t, s')
  }
}
