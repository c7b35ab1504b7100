/**
 An operation of the concurrent table that no other thread disturbs does what the sequential table would: it always
 finishes, and its result is determined by the keys, the size and the maximum load at its start.
 */
module ConcurrentAlone {
  import opened SizePolicy
  import opened Keys
  import opened Probing
  import opened Counting
  import opened ConcurrentTable
  import opened ConcurrentSteps
  import opened ConcurrentSafety
  import opened ConcurrentUniqueness
  import opened ConcurrentSizes
  import opened ConcurrentRuns
  import opened ConcurrentEffects
  import opened ConcurrentOperations
  import opened ConcurrentProgress

  ghost predicate Alone<K>(s: State<K>, t: nat) {
    t < |s.threads| && forall u :: 0 <= u < |s.threads| && u != t ==> s.threads[u].pc.Done?
  }

  lemma AloneAsks<K>(p: KeyPolicy<K>, geo: Geometry, s: State<K>, t: nat)
    requires Alone(s, t)
    ensures Asks(p, geo, s, t)
  {
  }

  // ----- It finishes -----

  /** Program counters of an insertion that lost its counter check. */
  predicate Withdraws(pc: PC) { pc.InsUndo? || pc.InsRelease? || pc.InsGiveBack? }

  /** Program counters between the reading of the counter and its check. */
  predicate BeforeCheck(pc: PC) {
    || pc.Probe? || pc.Await? || pc.Compare? || pc.TestOverflow? || pc.ReserveSize? || pc.TestSize? || pc.Reject?
    || pc.InsLock? || pc.InsScan? || pc.InsPass? || pc.InsCount?
  }

  /** None of the first `n` groups probed for `k` has a free slot. */
  ghost predicate NoRoomBefore<K>(p: KeyPolicy<K>, geo: Geometry, s: State<K>, k: K, n: nat) {
    forall x: nat, j: nat :: x < |s.slots| && j < n && GroupOf(x) == GroupAt(p, geo, k, j) ==> !s.slots[x].Free?
  }

  /** A thread alone finds the counter where it left it, and has scanned only full groups. */
  ghost predicate Unhindered<K>(p: KeyPolicy<K>, geo: Geometry, s: State<K>, t: nat) {
    && Inv(p, geo, s) && Alone(s, t)
    && var th := s.threads[t];
       && Working(th) && !Withdraws(th.pc)
       && CounterStands(p, geo, s, th)
       && NoRoomBefore(p, geo, s, th.key, MarkedSteps(th.pc))
  }

  lemma StaysAlone<K>(p: KeyPolicy<K>, geo: Geometry, s: State<K>, t: nat, s': State<K>)
    requires Alone(s, t) && MovesOne(p, geo, s, t, s')
    ensures Alone(s', t)
  {
  }

  ghost predicate CounterStands<K>(p: KeyPolicy<K>, geo: Geometry, s: State<K>, th: Thread<K>) {
    BeforeCheck(th.pc) ==> Home(p, geo, th.key) < |s.cnt| && s.cnt[Home(p, geo, th.key)] == th.counter
  }

  /** The counter check of a thread alone succeeds. */
  lemma CounterKept<K>(p: KeyPolicy<K>, geo: Geometry, s: State<K>, t: nat, s': State<K>)
    requires Safe(p, geo, s) && Next(p, geo, s, t, s') && MovesOne(p, geo, s, t, s')
    requires CounterStands(p, geo, s, s.threads[t]) && !Withdraws(s.threads[t].pc) && !s.threads[t].pc.Done?
    ensures !Withdraws(s'.threads[t].pc) && CounterStands(p, geo, s', s'.threads[t])
  {
    var pc := s.threads[t].pc;
    if pc.InsCount? {
      CheckSucceeds(p, geo, s, t, s');
    } else if pc.Begin? {
      CounterRead(p, geo, s, t, s');
    } else if BeforeCheck(pc) {
      BeforeCheckKeepsCounters(p, geo, s, t, s');
    }
  }

  lemma CheckSucceeds<K>(p: KeyPolicy<K>, geo: Geometry, s: State<K>, t: nat, s': State<K>)
    requires Next(p, geo, s, t, s') && s.threads[t].pc.InsCount? && CounterStands(p, geo, s, s.threads[t])
    ensures s'.threads[t].pc.InsConstruct?
  {
    CountChanges(p, geo, s, t, s');
  }

  lemma CounterRead<K>(p: KeyPolicy<K>, geo: Geometry, s: State<K>, t: nat, s': State<K>)
    requires Safe(p, geo, s) && Next(p, geo, s, t, s') && MovesOne(p, geo, s, t, s') && s.threads[t].pc.Begin?
    ensures CounterStands(p, geo, s', s'.threads[t])
  {
    BeginReads(p, geo, s, t, s');
    LookupChanges(p, geo, s, t, s');
  }

  lemma BeforeCheckKeepsCounters<K>(p: KeyPolicy<K>, geo: Geometry, s: State<K>, t: nat, s': State<K>)
    requires Safe(p, geo, s) && Next(p, geo, s, t, s')
    requires BeforeCheck(s.threads[t].pc) && !s.threads[t].pc.InsCount?
    ensures s'.cnt == s.cnt
  {
    if LookupStep(p, geo, s, t, s') {
      LookupChanges(p, geo, s, t, s');
    } else if ReserveStep(p, geo, s, t, s') {
      ReserveAccounts(p, geo, s, t, s');
    }
  }

  /** What a scan that passes a group has found there. */
  lemma PassedIsFull<K>(p: KeyPolicy<K>, geo: Geometry, s: State<K>, t: nat, s': State<K>)
    requires Shaped(p, geo, s) && t < |s.threads| && s.threads[t].pc.InsScan? && ScanStep(p, geo, s, t, s')
    requires s'.threads[t].pc.InsPass? && NoRoomBefore(p, geo, s, s.threads[t].key, s.threads[t].pc.step)
    ensures NoRoomBefore(p, geo, s, s.threads[t].key, s.threads[t].pc.step + 1)
  {
    var k, i := s.threads[t].key, s.threads[t].pc.step;
    var g := GroupAt(p, geo, k, i);
    forall x: nat | x < |s.slots| && GroupOf(x) == g ensures !s.slots[x].Free? {
      assert x !in Matching(p, s, g, 0);
    }
  }

  lemma ScanKeepsNoRoom<K>(p: KeyPolicy<K>, geo: Geometry, s: State<K>, t: nat, s': State<K>)
    requires Shaped(p, geo, s) && t < |s.threads| && s.threads[t].pc.InsScan? && ScanStep(p, geo, s, t, s')
    requires MovesOne(p, geo, s, t, s') && NoRoomBefore(p, geo, s, s.threads[t].key, s.threads[t].pc.step)
    ensures NoRoomBefore(p, geo, s', s'.threads[t].key, MarkedSteps(s'.threads[t].pc))
  {
    ScanChanges(p, geo, s, t, s');
    if s'.threads[t].pc.InsPass? {
      PassedIsFull(p, geo, s, t, s');
    }
  }

  lemma SeekingKeepsNoRoom<K>(p: KeyPolicy<K>, geo: Geometry, s: State<K>, t: nat, s': State<K>)
    requires Next(p, geo, s, t, s') && MovesOne(p, geo, s, t, s') && (s.threads[t].pc.InsLock? || s.threads[t].pc.InsPass?)
    requires NoRoomBefore(p, geo, s, s.threads[t].key, MarkedSteps(s.threads[t].pc))
    ensures NoRoomBefore(p, geo, s', s'.threads[t].key, MarkedSteps(s'.threads[t].pc))
  {
    ReserveAccounts(p, geo, s, t, s');
  }

  lemma MarksNothing(op: Op, pc: PC, pc': PC)
    requires Flows(op, pc, pc') && !pc.InsScan? && !pc.InsLock? && !pc.InsPass?
    ensures MarkedSteps(pc') == 0
  {
  }

  lemma NoRoomKept<K>(p: KeyPolicy<K>, geo: Geometry, s: State<K>, t: nat, s': State<K>)
    requires Next(p, geo, s, t, s') && MovesOne(p, geo, s, t, s')
    requires NoRoomBefore(p, geo, s, s.threads[t].key, MarkedSteps(s.threads[t].pc)) && !s.threads[t].pc.Done?
    ensures NoRoomBefore(p, geo, s', s'.threads[t].key, MarkedSteps(s'.threads[t].pc))
  {
    var pc := s.threads[t].pc;
    if pc.InsScan? {
      ScanKeepsNoRoom(p, geo, s, t, s');
    } else if pc.InsLock? || pc.InsPass? {
      SeekingKeepsNoRoom(p, geo, s, t, s');
    } else {
      MarksNothing(s.threads[t].op, pc, s'.threads[t].pc);
    }
  }

  /** An own step leaves a thread alone unhindered, until it is done. */
  lemma StaysUnhindered<K(!new)>(p: KeyPolicy<K>, geo: Geometry, s: State<K>, t: nat, s': State<K>)
    requires Lawful(p) && Unhindered(p, geo, s, t) && Next(p, geo, s, t, s')
    ensures s'.threads[t].pc.Done? || Unhindered(p, geo, s', t)
  {
    StepMovesOne(p, geo, s, t, s');
    StepKeepsInv(p, geo, s, t, s');
    StaysAlone(p, geo, s, t, s');
    FlowGoesOn(p, geo, s.threads[t], s'.threads[t]);
    CounterKept(p, geo, s, t, s');
    NoRoomKept(p, geo, s, t, s');
  }

  lemma SomeFree<K>(slots: seq<Slot<K>>) returns (x: nat)
    requires Total(slots, FreeWeight) >= 1
    ensures x < |slots| && slots[x].Free?
  {
    if forall v :: v in slots ==> !v.Free? {
      TotalZero(slots, FreeWeight);
    }
    var v :| v in slots && v.Free?;
    x :| 0 <= x < |slots| && slots[x] == v;
  }

  /** A thread whose reservation was granted finds a free slot before it has passed all groups. */
  lemma RoomAhead<K>(p: KeyPolicy<K>, geo: Geometry, s: State<K>, t: nat)
    requires Unhindered(p, geo, s, t) && SeekerWeight(s.threads[t]) == 1
    ensures MarkedSteps(s.threads[t].pc) < geo.groups
  {
    OneSentinel(s.slots);
    FreeSlotsSuffice(geo, s);
    TotalCovers(s.threads, SeekerWeight, t);
    var x := SomeFree(s.slots);
    var home, g := Home(p, geo, s.threads[t].key), GroupOf(x);
    assert Covers(geo, home, g);
    var i: nat :| i < geo.groups && geo.probe(home, i) == g;
    assert GroupOf(x) == GroupAt(p, geo, s.threads[t].key, i);
  }

  // A measure that every own step lowers.

  function Stage(pc: PC): nat {
    if pc.Begin? then 9
    else if pc.Probe? || pc.Await? || pc.Compare? || pc.TestOverflow? then 8
    else if pc.ReserveSize? then 7
    else if pc.TestSize? then 6
    else if pc.InsLock? || pc.InsScan? || pc.InsPass? then 5
    else if pc.InsCount? then 4
    else if pc.EraseLoad? || pc.InsConstruct? then 3
    else if pc.EraseReset? then 2
    else if pc.EraseSize? then 1
    else 0
  }

  function Left(groups: nat, pc: PC): nat {
    var i := if pc.Probe? || pc.Await? || pc.Compare? || pc.TestOverflow? || pc.InsLock? || pc.InsScan? || pc.InsPass?
             then pc.step else 0;
    if i < groups then groups - i else 0
  }

  function Part(pc: PC): nat {
    match pc
    case Probe(_) => 3
    case Await(_, _) => 2
    case Compare(_, _) => 1
    case InsLock(_) => 2
    case InsScan(_) => 1
    case _ => 0
  }

  /** `pc'` is below `pc`. */
  predicate Below(groups: nat, pc': PC, pc: PC) {
    || Stage(pc') < Stage(pc)
    || (Stage(pc') == Stage(pc)
        && (|| Left(groups, pc') < Left(groups, pc)
            || (Left(groups, pc') == Left(groups, pc)
                && (Part(pc') < Part(pc) || (Part(pc') == Part(pc) && MaskOf(pc') < MaskOf(pc))))))
  }

  lemma FlowDescends(op: Op, pc: PC, pc': PC, groups: nat)
    requires Flows(op, pc, pc') && Fits(op, pc) && !op.Sweep?
    requires !Withdraws(pc) && !Withdraws(pc') && !pc.Done? && !pc'.Done?
    requires pc.TestOverflow? || pc.InsPass? ==> pc.step < groups
    ensures Below(groups, pc', pc)
  {
  }

  lemma Descends<K>(p: KeyPolicy<K>, geo: Geometry, s: State<K>, t: nat, s': State<K>)
    requires Unhindered(p, geo, s, t) && MovesOne(p, geo, s, t, s')
    requires !Withdraws(s'.threads[t].pc) && !s'.threads[t].pc.Done?
    ensures Below(geo.groups, s'.threads[t].pc, s.threads[t].pc)
  {
    assert ShapedThread(p, geo, s.threads[t]);
    if SeekerWeight(s.threads[t]) == 1 {
      RoomAhead(p, geo, s, t);
    }
    FlowDescends(s.threads[t].op, s.threads[t].pc, s'.threads[t].pc, geo.groups);
  }

  /** A next step, after which the thread is done, or nearer to that. */
  lemma AloneSteps<K(!new)>(p: KeyPolicy<K>, geo: Geometry, s: State<K>, t: nat) returns (s': State<K>)
    requires Lawful(p) && Unhindered(p, geo, s, t)
    ensures Next(p, geo, s, t, s')
    ensures s'.threads[t].pc.Done?
         || (Unhindered(p, geo, s', t) && Below(geo.groups, s'.threads[t].pc, s.threads[t].pc))
  {
    AloneAsks(p, geo, s, t);
    s' := CanStep(p, geo, s, t);
    StepMovesOne(p, geo, s, t, s');
    if !s'.threads[t].pc.Done? {
      StaysUnhindered(p, geo, s, t, s');
      Descends(p, geo, s, t, s');
    }
  }

  /** A thread alone comes to the end of its operation. */
  lemma {:induction false} AloneFinishes<K(!new)>(p: KeyPolicy<K>, geo: Geometry, s: State<K>, t: nat)
    returns (path: seq<State<K>>)
    requires Lawful(p) && Unhindered(p, geo, s, t)
    ensures |path| > 1 && path[0] == s && IsPath(p, geo, path, t)
    ensures t < |path[|path| - 1].threads| && path[|path| - 1].threads[t].pc.Done?
    decreases Stage(s.threads[t].pc), Left(geo.groups, s.threads[t].pc), Part(s.threads[t].pc), MaskOf(s.threads[t].pc)
  {
    var s' := AloneSteps(p, geo, s, t);
    if s'.threads[t].pc.Done? {
      path := [s, s'];
    } else {
      var rest := AloneFinishes(p, geo, s', t);
      path := [s] + rest;
      PathMore(p, geo, s, rest, t);
    }
  }

  lemma PathMore<K>(p: KeyPolicy<K>, geo: Geometry, s: State<K>, rest: seq<State<K>>, t: nat)
    requires rest != [] && IsPath(p, geo, rest, t) && Next(p, geo, s, t, rest[0])
    requires t < |s.threads| && !s.threads[t].pc.Done?
    ensures IsPath(p, geo, [s] + rest, t)
  {
    var path := [s] + rest;
    forall i | 0 <= i < |path| - 1 ensures PathStep(p, geo, path, t, i) {
      if i > 0 {
        assert PathStep(p, geo, rest, t, i - 1);
        assert path[i] == rest[i - 1] && path[i + 1] == rest[i - 1 + 1];
      }
    }
  }

  ghost predicate PathStep<K>(p: KeyPolicy<K>, geo: Geometry, path: seq<State<K>>, t: nat, i: nat) {
    && i + 1 < |path| && Next(p, geo, path[i], t, path[i + 1])
    && t < |path[i].threads| && !path[i].threads[t].pc.Done?
  }

  /** Steps of thread `t`, inside its operation until the last state. */
  ghost predicate IsPath<K>(p: KeyPolicy<K>, geo: Geometry, path: seq<State<K>>, t: nat) {
    forall i :: 0 <= i < |path| - 1 ==> PathStep(p, geo, path, t, i)
  }

  // ----- The answer -----

  /** What the operation reports when started alone in the quiet state `q`. */
  ghost function Expected<K>(p: KeyPolicy<K>, q: State<K>, op: Op, k: K): int {
    match op
    case Insert => if Present(p, q, k) then 0 else if q.size < q.ml then 1 else -1
    case Visit => if Present(p, q, k) then 1 else 0
    case Erase(accepts) => if Present(p, q, k) && accepts then 1 else 0
    case Sweep => 0
  }

  /** The size counter and the maximum load of an insertion alone that started at size `size` and load `ml`. */
  predicate SizesStand(pc: PC, size: int, ml: int, size': int, ml': int) {
    && ml' == ml
    && match pc
       case TestSize(c) => size' == c == size + 1
       case Reject => size' == size + 1 > ml
       case Unlock(_, _, r) => r == 1 ==> size + 1 <= ml
       case Done(r) => (r == 1 ==> size + 1 <= ml) && (r == -1 ==> size + 1 > ml)
       case Begin => size' == size
       case Probe(_) => size' == size
       case Await(_, _) => size' == size
       case Compare(_, _) => size' == size
       case TestOverflow(_) => size' == size
       case ReserveSize => size' == size
       case _ => size' == size + 1 <= ml
  }

  /** One own step of an insertion. */
  lemma SizesOn<K>(p: KeyPolicy<K>, geo: Geometry, s: State<K>, t: nat, s': State<K>, size: int, ml: int)
    requires Safe(p, geo, s) && Next(p, geo, s, t, s') && MovesOne(p, geo, s, t, s')
    requires s.threads[t].op.Insert? && Working(s.threads[t])
    requires SizesStand(s.threads[t].pc, size, ml, s.size, s.ml)
    ensures SizesStand(s'.threads[t].pc, size, ml, s'.size, s'.ml)
  {
    SizesMove(p, geo, s, t, s');
    SizesFlow(s.threads[t].pc, s'.threads[t].pc, size, ml, s.size, s.ml, s'.size, s'.ml);
  }

  /** How the size counter and the maximum load change with a step of an insertion. */
  predicate SizesMoved(pc: PC, pc': PC, size: int, ml: int, size': int, ml': int) {
    Reckons(pc, pc', size, size', ml, ml') || (size' == size && ml' == ml && !pc.ReserveSize? && !pc.TestSize?
                                               && !pc.Reject? && !pc.InsGiveBack?)
  }

  lemma SizesMove<K>(p: KeyPolicy<K>, geo: Geometry, s: State<K>, t: nat, s': State<K>)
    requires Safe(p, geo, s) && Next(p, geo, s, t, s') && s.threads[t].op.Insert? && Working(s.threads[t])
    ensures SizesMoved(s.threads[t].pc, s'.threads[t].pc, s.size, s.ml, s'.size, s'.ml)
  {
    var pc := s.threads[t].pc;
    if LookupStep(p, geo, s, t, s') {
      LookupMovesOne(p, geo, s, t, s');
      LookupChanges(p, geo, s, t, s');
    } else if ReserveStep(p, geo, s, t, s') {
      ReserveAccounts(p, geo, s, t, s');
    } else if pc.InsScan? {
      ScanChanges(p, geo, s, t, s');
    } else if pc.InsCount? {
      CountChanges(p, geo, s, t, s');
    } else {
      InsertSettles(p, geo, s, t, s');
    }
  }

  lemma SizesFlow(pc: PC, pc': PC, size: int, ml: int, a: int, x: int, b: int, y: int)
    requires Flows(Insert, pc, pc') && Fits(Insert, pc) && !pc.Done?
    requires SizesStand(pc, size, ml, a, x) && SizesMoved(pc, pc', a, x, b, y)
    ensures SizesStand(pc', size, ml, b, y)
  {
  }

  ghost predicate Undisturbed(acts: seq<nat>, t: nat, b: nat, m: nat) {
    m <= |acts| && forall j :: b <= j < m ==> acts[j] == t
  }

  lemma OwnStepInto<K(!new)>(p: KeyPolicy<K>, geo: Geometry, run: seq<State<K>>, acts: seq<nat>, t: nat, b: nat, i: nat)
    requires Lawful(p) && IsRun(p, geo, run, acts) && b < i && Busy(run, t, b, i) && acts[i - 1] == t
    ensures Safe(p, geo, run[i - 1]) && Next(p, geo, run[i - 1], t, run[i]) && MovesOne(p, geo, run[i - 1], t, run[i])
    ensures Working(run[i - 1].threads[t]) && SameTask(run[b].threads[t], run[i - 1].threads[t])
  {
    RunIsStretch(p, geo, run, acts, b, i - 1);
    StandsThroughout(p, geo, run, acts, t, b, i - 1);
    RunInv(p, geo, run, acts, i - 1);
    StepInto(p, geo, run, acts, i);
    StepMovesOne(p, geo, run[i - 1], t, run[i]);
  }

  ghost predicate SizesStandAt<K>(run: seq<State<K>>, t: nat, b: nat, i: nat) {
    && b < |run| && i < |run| && t < |run[i].threads|
    && SizesStand(run[i].threads[t].pc, run[b].size, run[b].ml, run[i].size, run[i].ml)
  }

  lemma SizesInto<K(!new)>(p: KeyPolicy<K>, geo: Geometry, run: seq<State<K>>, acts: seq<nat>, t: nat, b: nat, i: nat)
    requires Lawful(p) && IsRun(p, geo, run, acts) && b < i && Busy(run, t, b, i) && acts[i - 1] == t
    requires run[b].threads[t].op.Insert? && SizesStandAt(run, t, b, i - 1)
    ensures SizesStandAt(run, t, b, i)
  {
    OwnStepInto(p, geo, run, acts, t, b, i);
    SizesOn(p, geo, run[i - 1], t, run[i], run[b].size, run[b].ml);
  }

  lemma {:induction false} SizesAlong<K(!new)>(p: KeyPolicy<K>, geo: Geometry, run: seq<State<K>>, acts: seq<nat>,
                                               t: nat, b: nat, i: nat)
    requires Lawful(p) && IsRun(p, geo, run, acts) && Busy(run, t, b, i) && Undisturbed(acts, t, b, i)
    requires run[b].threads[t].op.Insert?
    ensures SizesStandAt(run, t, b, i)
  {
    if i > b {
      SizesAlong(p, geo, run, acts, t, b, i - 1);
      SizesInto(p, geo, run, acts, t, b, i);
    }
  }

  /** The same keys are present in state `i` as in state `b`. */
  ghost predicate SamePresence<K(!new)>(p: KeyPolicy<K>, run: seq<State<K>>, b: nat, i: nat)
    requires b < |run| && i < |run|
  {
    Keeps(p, run[b], run[i])
  }

  lemma {:induction false} KeptAlong<K(!new)>(p: KeyPolicy<K>, run: seq<State<K>>, acts: seq<nat>,
                                              t: nat, b: nat, m: nat, j: int, i: nat)
    requires m < |run| == |acts| + 1 && b <= i <= m && Undisturbed(acts, t, b, m)
    requires QuietBut(p, run, acts, t, b, m, j) && (j < b || i <= j)
    ensures SamePresence(p, run, b, i)
  {
    if i > b {
      KeptAlong(p, run, acts, t, b, m, j, i - 1);
      KeptInto(p, run, acts, t, b, m, j, i);
    }
  }

  lemma KeptInto<K(!new)>(p: KeyPolicy<K>, run: seq<State<K>>, acts: seq<nat>, t: nat, b: nat, m: nat, j: int, i: nat)
    requires m < |run| == |acts| + 1 && b < i <= m && Undisturbed(acts, t, b, m)
    requires QuietBut(p, run, acts, t, b, m, j) && (j < b || i <= j)
    ensures Keeps(p, run[i - 1], run[i])
  {
    assert acts[i - 1] == t && Keeps(p, run[i - 1], run[i - 1 + 1]);
  }

  /** Starting an operation changes nothing but the thread. */
  lemma StartChangesNothing<K>(p: KeyPolicy<K>, geo: Geometry, s: State<K>, t: nat, s': State<K>)
    requires Next(p, geo, s, t, s') && s.threads[t].pc.Done?
    ensures s'.slots == s.slots && s'.size == s.size && s'.ml == s.ml
  {
  }

  /** What presence at some moment of an undisturbed stretch says of its start. */
  lemma PresentAtStart<K(!new)>(p: KeyPolicy<K>, run: seq<State<K>>, acts: seq<nat>, t: nat, b: nat, m: nat, j: int, i: nat, k: K)
    requires m < |run| == |acts| + 1 && b <= i <= m && Undisturbed(acts, t, b, m)
    requires QuietBut(p, run, acts, t, b, m, j) && (j < b || i <= j)
    ensures Present(p, run[i], k) <==> Present(p, run[b], k)
  {
    KeptAlong(p, run, acts, t, b, m, j, i);
    assert SamePresence(p, run, b, i);
  }

  lemma MomentsAgree<K(!new)>(p: KeyPolicy<K>, run: seq<State<K>>, acts: seq<nat>, t: nat, b: nat, m: nat, k: K)
    requires b <= m < |run| == |acts| + 1 && Undisturbed(acts, t, b, m) && QuietBut(p, run, acts, t, b, m, -1)
    ensures SomeHit(p, run, acts, t, k, b, m) ==> Present(p, run[b], k)
    ensures SomeAbsent(p, run, k, b, m) ==> !Present(p, run[b], k)
  {
    if j :| b <= j < m && Hit(p, run, acts, t, k, j) {
      PresentAtStart(p, run, acts, t, b, m, -1, j, k);
    }
    if j :| b <= j <= m && !Present(p, run[j], k) {
      PresentAtStart(p, run, acts, t, b, m, -1, j, k);
    }
  }

  lemma EffectFromStart<K(!new)>(p: KeyPolicy<K>, run: seq<State<K>>, acts: seq<nat>, t: nat, b: nat, m: nat, op: Op, k: K)
    requires b <= m < |run| == |acts| + 1 && Undisturbed(acts, t, b, m) && EffectOnce(p, run, acts, t, b, m, op, k)
    ensures op.Insert? ==> !Present(p, run[b], k)
    ensures op.Erase? ==> Present(p, run[b], k)
  {
    var j: nat :| b <= j < m && EffectAt(run, acts, t, j) && QuietBut(p, run, acts, t, b, m, j)
                  && HasEffect(p, run[j], run[j + 1], op, k);
    PresentAtStart(p, run, acts, t, b, m, j, j, k);
  }

  /** The result of an operation that no other thread disturbs, from a state in which all threads were done. */
  lemma AloneAnswers<K(!new)>(p: KeyPolicy<K>, geo: Geometry, run: seq<State<K>>, acts: seq<nat>, t: nat, b: nat, m: nat)
    requires Lawful(p) && IsRun(p, geo, run, acts) && Operation(run, t, b, m) && Undisturbed(acts, t, b - 1, m)
    ensures run[m].threads[t].pc.result == Expected(p, run[b - 1], run[b].threads[t].op, run[b].threads[t].key)
  {
    var op, k := run[b].threads[t].op, run[b].threads[t].key;
    OperationIsAtomic(p, geo, run, acts, t, b, m);
    StepInto(p, geo, run, acts, b);
    StartChangesNothing(p, geo, run[b - 1], t, run[b]);
    assert Present(p, run[b - 1], k) == Present(p, run[b], k);
    if op.Insert? {
      SizesAlong(p, geo, run, acts, t, b, m);
    }
    if QuietBut(p, run, acts, t, b, m, -1) {
      MomentsAgree(p, run, acts, t, b, m, k);
    }
    if EffectOnce(p, run, acts, t, b, m, op, k) {
      EffectFromStart(p, run, acts, t, b, m, op, k);
    }
  }

  // ----- From a quiet state -----

  lemma StartIsUnhindered<K(!new)>(p: KeyPolicy<K>, geo: Geometry, s: State<K>, t: nat, th: Thread<K>, s': State<K>)
    requires Lawful(p) && Inv(p, geo, s) && t < |s.threads| && th.pc == Begin && !th.op.Sweep? && (th.op.Erase? ==> th.excl)
    requires AllDone(s.threads)
    requires s' == s.(threads := s.threads[t := th])
    ensures Next(p, geo, s, t, s') && Unhindered(p, geo, s', t)
  {
    CanStart(p, geo, s, t, th);
    StepKeepsInv(p, geo, s, t, s');
  }

  ghost function Actions(n: nat, t: nat): seq<nat> {
    seq(n, i => t)
  }

  lemma RunExtended<K>(p: KeyPolicy<K>, geo: Geometry, run: seq<State<K>>, acts: seq<nat>, path: seq<State<K>>, t: nat)
    requires IsRun(p, geo, run, acts) && path != [] && path[0] == run[|run| - 1] && IsPath(p, geo, path[1..], t)
    requires |path| > 1 ==> Next(p, geo, path[0], t, path[1])
    ensures IsRun(p, geo, run + path[1..], acts + Actions(|path| - 1, t))
  {
    var run', acts' := run + path[1..], acts + Actions(|path| - 1, t);
    forall i | 0 <= i < |acts'| ensures StepAt(p, geo, run', acts', i) {
      if i < |acts| {
        assert StepAt(p, geo, run, acts, i);
        assert run'[i] == run[i] && run'[i + 1] == run[i + 1];
      } else {
        var j := i - |acts|;
        assert run'[i] == path[j] && run'[i + 1] == path[j + 1];
        if j > 0 {
          assert PathStep(p, geo, path[1..], t, j - 1);
        }
      }
    }
  }

  /** Whenever all threads are done, any of them can carry out any operation on any key, to its end and with that result. */
  lemma AnyOperationRuns<K(!new)>(p: KeyPolicy<K>, geo: Geometry, run: seq<State<K>>, acts: seq<nat>, t: nat, th: Thread<K>)
    returns (run': seq<State<K>>, acts': seq<nat>)
    requires Lawful(p) && IsRun(p, geo, run, acts) && t < |run[|run| - 1].threads|
    requires AllDone(run[|run| - 1].threads)
    requires th.pc == Begin && !th.op.Sweep? && (th.op.Erase? ==> th.excl)
    ensures IsRun(p, geo, run', acts') && run <= run' && |run'| > |run|
    ensures Operation(run', t, |run|, |run'| - 1) && run'[|run|].threads[t] == th
    ensures run'[|run'| - 1].threads[t].pc.result == Expected(p, run[|run| - 1], th.op, th.key)
  {
    var s := run[|run| - 1];
    var rest := PathFromQuiet(p, geo, run, acts, t, th);
    assert ([s] + rest)[1..] == rest;
    RunExtended(p, geo, run, acts, [s] + rest, t);
    run', acts' := run + rest, acts + Actions(|rest|, t);
    PathIsBusy(p, geo, run, rest, t);
    AloneAnswers(p, geo, run', acts', t, |run|, |run'| - 1);
  }

  lemma PathFromQuiet<K(!new)>(p: KeyPolicy<K>, geo: Geometry, run: seq<State<K>>, acts: seq<nat>, t: nat, th: Thread<K>)
    returns (rest: seq<State<K>>)
    requires Lawful(p) && IsRun(p, geo, run, acts) && t < |run[|run| - 1].threads|
    requires AllDone(run[|run| - 1].threads)
    requires th.pc == Begin && !th.op.Sweep? && (th.op.Erase? ==> th.excl)
    ensures |rest| > 1 && IsPath(p, geo, rest, t) && Next(p, geo, run[|run| - 1], t, rest[0])
    ensures t < |rest[0].threads| && rest[0].threads[t] == th
    ensures t < |rest[|rest| - 1].threads| && rest[|rest| - 1].threads[t].pc.Done?
  {
    var s := run[|run| - 1];
    var s' := s.(threads := s.threads[t := th]);
    RunInv(p, geo, run, acts, |run| - 1);
    StartIsUnhindered(p, geo, s, t, th, s');
    rest := AloneFinishes(p, geo, s', t);
  }

  lemma PathIsBusy<K>(p: KeyPolicy<K>, geo: Geometry, run: seq<State<K>>, rest: seq<State<K>>, t: nat)
    requires run != [] && |rest| > 1 && IsPath(p, geo, rest, t)
    requires t < |run[|run| - 1].threads| && run[|run| - 1].threads[t].pc.Done?
    requires t < |rest[0].threads| && rest[0].threads[t].pc.Begin? && !rest[0].threads[t].op.Sweep?
    requires t < |rest[|rest| - 1].threads| && rest[|rest| - 1].threads[t].pc.Done?
    ensures Operation(run + rest, t, |run|, |run| + |rest| - 1)
  {
    var run' := run + rest;
    forall i | |run| <= i < |run'| - 1 ensures t < |run'[i].threads| && !run'[i].threads[t].pc.Done? {
      assert PathStep(p, geo, rest, t, i - |run|);
      assert run'[i] == rest[i - |run|];
    }
  }
}
