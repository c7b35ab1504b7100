/**
 Walks over all elements of the concurrent table among other threads: the function is called at most once on each slot,
 and a slot that holds an element throughout is not passed over.
 */
module ConcurrentWalks {
  import opened SizePolicy
  import opened Keys
  import opened Probing
  import opened ConcurrentTable
  import opened ConcurrentSteps
  import opened ConcurrentSafety
  import opened ConcurrentRuns

  /** The program counters of a walk. */
  predicate Walking(pc: PC) {
    match pc
    case Done(_) => true
    case Begin => true
    case SweepLock(_) => true
    case SweepScan(_) => true
    case SweepNext(_, _) => true
    case EraseLoad(_, _, rest) => rest.More?
    case EraseReset(_, _, _, rest) => rest.More?
    case EraseSize(_, rest) => rest.More?
    case _ => false
  }

  /** The walk is still to come to slot `x`. */
  predicate Due(pc: PC, x: nat) {
    match pc
    case Begin => true
    case SweepLock(g) => g <= GroupOf(x)
    case SweepScan(g) => g <= GroupOf(x)
    case SweepNext(g, m) => g < GroupOf(x) || x in m
    case EraseLoad(g, _, rest) => g < GroupOf(x) || x in MaskLeft(pc)
    case EraseReset(g, _, _, rest) => g < GroupOf(x) || x in MaskLeft(pc)
    case EraseSize(g, rest) => g < GroupOf(x) || x in MaskLeft(pc)
    case _ => false
  }

  /** With its next step thread `t` calls the function on the element in slot `x`. */
  ghost predicate Calls<K>(s: State<K>, t: nat, x: nat) {
    t < |s.threads| && s.threads[t].pc.SweepNext? && Lowest(x, s.threads[t].pc.mask)
  }

  ghost predicate LiveAt<K>(s: State<K>, x: nat) {
    x < |s.slots| && s.slots[x].Live?
  }

  ghost predicate WalkingAt<K>(s: State<K>, t: nat) {
    t < |s.threads| && s.threads[t].op.Sweep? && Walking(s.threads[t].pc)
  }

  // ----- Single steps -----

  lemma WalksOn(pc: PC, pc': PC)
    requires Flows(Sweep, pc, pc') && Walking(pc) && !pc.Done?
    ensures Walking(pc')
  {
  }

  /** What the walk has passed does not become due again. */
  lemma PassedStays(pc: PC, pc': PC, x: nat)
    requires Flows(Sweep, pc, pc') && Walking(pc) && !pc.Done? && !Due(pc, x)
    requires pc'.SweepNext? && x in pc'.mask ==> GroupOf(x) == pc'.group
    ensures !Due(pc', x)
  {
  }

  lemma MaskInGroup<K>(p: KeyPolicy<K>, geo: Geometry, s: State<K>, t: nat, x: nat)
    requires Shaped(p, geo, s) && t < |s.threads|
    requires s.threads[t].pc.SweepNext? && x in s.threads[t].pc.mask
    ensures x < |s.slots| && GroupOf(x) == s.threads[t].pc.group
  {
    assert ShapedThread(p, geo, s.threads[t]);
  }

  lemma SweepSteps<K>(p: KeyPolicy<K>, geo: Geometry, s: State<K>, t: nat, s': State<K>)
    requires Next(p, geo, s, t, s') && (s.threads[t].pc.SweepNext? || s.threads[t].pc.SweepScan?)
    ensures Shaped(p, geo, s) && SweepStep(p, geo, s, t, s')
  {
  }

  /** After the call the walk is past the slot. */
  lemma CallPasses<K>(p: KeyPolicy<K>, geo: Geometry, s: State<K>, t: nat, s': State<K>, x: nat)
    requires Shaped(p, geo, s) && t < |s.threads| == |s'.threads| && SweepStep(p, geo, s, t, s')
    requires Calls(s, t, x)
    ensures x < |s.slots| && s.slots[x].Live? && Due(s.threads[t].pc, x) && !Due(s'.threads[t].pc, x)
  {
    MaskInGroup(p, geo, s, t, x);
  }

  /** All slots up to `x` that the walk was still to come to in its group are called or were empty. */
  ghost predicate NoneBelow(pc: PC, x: nat) {
    pc.SweepNext? && forall y :: y in pc.mask ==> x <= y
  }

  /** Only calls pass slots that are listed. */
  lemma DueStays(pc: PC, pc': PC, x: nat)
    requires Flows(Sweep, pc, pc') && Walking(pc) && Due(pc, x) && !pc.SweepNext?
    requires pc.SweepScan? && GroupOf(x) == pc.group ==> pc'.SweepNext? && x in pc'.mask
    ensures Due(pc', x)
  {
  }

  lemma ScanLists<K>(p: KeyPolicy<K>, geo: Geometry, s: State<K>, t: nat, s': State<K>, x: nat)
    requires Shaped(p, geo, s) && t < |s.threads| == |s'.threads| && s.threads[t].pc.SweepScan?
    requires SweepStep(p, geo, s, t, s')
    requires x < |s.slots| && s.slots[x].Live? && GroupOf(x) == s.threads[t].pc.group
    ensures s'.threads[t].pc.SweepNext? && x in s'.threads[t].pc.mask
  {
    assert ShapedThread(p, geo, s.threads[t]);
  }

  lemma CallOrEnd<K>(p: KeyPolicy<K>, geo: Geometry, s: State<K>, t: nat, s': State<K>, x: nat)
    requires Shaped(p, geo, s) && t < |s.threads| == |s'.threads| && s.threads[t].pc.SweepNext?
    requires SweepStep(p, geo, s, t, s')
    requires x < |s.slots| && Due(s.threads[t].pc, x) && !Due(s'.threads[t].pc, x)
    ensures Calls(s, t, x) || (s'.threads[t].pc.Done? && !NoneBelow(s.threads[t].pc, x))
  {
    var SweepNext(g, m) := s.threads[t].pc;
    assert GroupOf(x) < geo.groups;
    if m != {} {
      var y: nat :| Lowest(y, m) && y < |s.slots| && s.slots[y].Live? && CallOn(p, s, t, y, s');
      MaskInGroup(p, geo, s, t, y);
      if NoneBelow(s.threads[t].pc, x) {
        assert x <= y;
      }
    }
  }

  /** A constructed element is passed by a call, unless the function ends the walk before. */
  lemma ElementIsCalled<K>(p: KeyPolicy<K>, geo: Geometry, s: State<K>, t: nat, s': State<K>, x: nat)
    requires Next(p, geo, s, t, s') && MovesOne(p, geo, s, t, s') && WalkingAt(s, t)
    requires LiveAt(s, x) && Due(s.threads[t].pc, x) && !Due(s'.threads[t].pc, x)
    ensures Calls(s, t, x) || (s'.threads[t].pc.Done? && !NoneBelow(s.threads[t].pc, x))
  {
    var pc := s.threads[t].pc;
    if pc.SweepNext? {
      SweepSteps(p, geo, s, t, s');
      CallOrEnd(p, geo, s, t, s', x);
    } else {
      if pc.SweepScan? && GroupOf(x) == pc.group {
        SweepSteps(p, geo, s, t, s');
        ScanLists(p, geo, s, t, s', x);
      }
      DueStays(pc, s'.threads[t].pc, x);
    }
  }

  // ----- Runs -----

  /** Thread `t` walks over all elements from state `b` to state `m`, in which it has ended. */
  ghost predicate Walk<K>(run: seq<State<K>>, t: nat, b: nat, m: nat) {
    && b < m < |run|
    && (forall i :: b <= i <= m ==> t < |run[i].threads|)
    && run[b].threads[t].pc.Begin? && run[b].threads[t].op.Sweep?
    && (forall i :: b <= i < m ==> !run[i].threads[t].pc.Done?)
    && run[m].threads[t].pc.Done?
  }

  /** The step from state `j` calls the function on slot `x`. */
  ghost predicate CallAt<K>(run: seq<State<K>>, acts: seq<nat>, t: nat, x: nat, j: nat) {
    j + 1 < |run| == |acts| + 1 && acts[j] == t && Calls(run[j], t, x)
  }

  ghost predicate CalledIn<K>(run: seq<State<K>>, acts: seq<nat>, t: nat, x: nat, b: nat, i: nat) {
    exists j: nat :: b <= j < i && CallAt(run, acts, t, x, j)
  }

  lemma {:induction false} WalkingThroughout<K>(p: KeyPolicy<K>, geo: Geometry, run: seq<State<K>>, acts: seq<nat>,
                                                t: nat, b: nat, m: nat, i: nat)
    requires IsRun(p, geo, run, acts) && Walk(run, t, b, m) && b <= i <= m
    ensures WalkingAt(run[i], t)
    decreases i
  {
    if i > b {
      WalkingThroughout(p, geo, run, acts, t, b, m, i - 1);
      StepInto(p, geo, run, acts, i);
      StepMovesOne(p, geo, run[i - 1], acts[i - 1], run[i]);
      if acts[i - 1] == t {
        WalksOn(run[i - 1].threads[t].pc, run[i].threads[t].pc);
      }
    }
  }

  /** One step of the run, seen from a slot already passed. */
  lemma PassedStep<K(!new)>(p: KeyPolicy<K>, geo: Geometry, run: seq<State<K>>, acts: seq<nat>,
                            t: nat, i: nat, x: nat)
    requires Lawful(p) && IsRun(p, geo, run, acts) && 0 < i < |run|
    requires WalkingAt(run[i - 1], t) && !run[i - 1].threads[t].pc.Done? && !Due(run[i - 1].threads[t].pc, x)
    ensures t < |run[i].threads| && !Due(run[i].threads[t].pc, x)
  {
    StepInto(p, geo, run, acts, i);
    StepMovesOne(p, geo, run[i - 1], acts[i - 1], run[i]);
    RunInv(p, geo, run, acts, i);
    if acts[i - 1] == t {
      if run[i].threads[t].pc.SweepNext? && x in run[i].threads[t].pc.mask {
        MaskInGroup(p, geo, run[i], t, x);
      }
      PassedStays(run[i - 1].threads[t].pc, run[i].threads[t].pc, x);
    }
  }

  lemma {:induction false} PassedThroughout<K(!new)>(p: KeyPolicy<K>, geo: Geometry, run: seq<State<K>>, acts: seq<nat>,
                                                     t: nat, b: nat, m: nat, j: nat, i: nat, x: nat)
    requires Lawful(p) && IsRun(p, geo, run, acts) && Walk(run, t, b, m) && b <= j <= i <= m
    requires !Due(run[j].threads[t].pc, x)
    ensures !Due(run[i].threads[t].pc, x)
    decreases i
  {
    if j < i {
      PassedThroughout(p, geo, run, acts, t, b, m, j, i - 1, x);
      WalkingThroughout(p, geo, run, acts, t, b, m, i - 1);
      PassedStep(p, geo, run, acts, t, i, x);
    }
  }

  lemma CallAtPasses<K>(p: KeyPolicy<K>, geo: Geometry, run: seq<State<K>>, acts: seq<nat>, t: nat, x: nat, i: nat)
    requires IsRun(p, geo, run, acts) && 0 < i < |run| && CallAt(run, acts, t, x, i - 1)
    ensures t < |run[i].threads| && LiveAt(run[i - 1], x)
    ensures Due(run[i - 1].threads[t].pc, x) && !Due(run[i].threads[t].pc, x)
  {
    StepInto(p, geo, run, acts, i);
    SweepSteps(p, geo, run[i - 1], t, run[i]);
    CallPasses(p, geo, run[i - 1], t, run[i], x);
  }

  /** No slot is called twice in one walk, and each call meets a constructed element. */
  lemma CalledAtMostOnce<K(!new)>(p: KeyPolicy<K>, geo: Geometry, run: seq<State<K>>, acts: seq<nat>,
                                  t: nat, b: nat, m: nat, i: nat, j: nat, x: nat)
    requires Lawful(p) && IsRun(p, geo, run, acts) && Walk(run, t, b, m) && b <= i <= j < m
    requires CallAt(run, acts, t, x, i) && CallAt(run, acts, t, x, j)
    ensures i == j && LiveAt(run[i], x)
  {
    CallAtPasses(p, geo, run, acts, t, x, i + 1);
    CallAtPasses(p, geo, run, acts, t, x, j + 1);
    if i < j {
      PassedThroughout(p, geo, run, acts, t, b, m, i + 1, j, x);
    }
  }

  /** The walk came to its end, or the function ended it at slot `x` or later. */
  ghost predicate Reaches<K>(run: seq<State<K>>, t: nat, m: nat, x: nat) {
    0 < m <= |run| && t < |run[m - 1].threads| && NoneBelow(run[m - 1].threads[t].pc, x)
  }

  lemma DueStep<K>(p: KeyPolicy<K>, geo: Geometry, run: seq<State<K>>, acts: seq<nat>,
                   t: nat, b: nat, m: nat, i: nat, x: nat)
    requires IsRun(p, geo, run, acts) && Walk(run, t, b, m) && b < i <= m && Reaches(run, t, m, x)
    requires WalkingAt(run[i - 1], t) && LiveAt(run[i - 1], x)
    requires Due(run[i - 1].threads[t].pc, x) && !Due(run[i].threads[t].pc, x)
    ensures CallAt(run, acts, t, x, i - 1)
  {
    StepInto(p, geo, run, acts, i);
    StepMovesOne(p, geo, run[i - 1], acts[i - 1], run[i]);
    ElementIsCalled(p, geo, run[i - 1], t, run[i], x);
  }

  lemma {:induction false} DueOrCalled<K>(p: KeyPolicy<K>, geo: Geometry, run: seq<State<K>>, acts: seq<nat>,
                                          t: nat, b: nat, m: nat, i: nat, x: nat)
    requires IsRun(p, geo, run, acts) && Walk(run, t, b, m) && b <= i <= m && Reaches(run, t, m, x)
    requires forall j :: b <= j < i ==> LiveAt(run[j], x) || CalledIn(run, acts, t, x, b, j)
    ensures Due(run[i].threads[t].pc, x) || CalledIn(run, acts, t, x, b, i)
    decreases i
  {
    if i > b {
      DueOrCalled(p, geo, run, acts, t, b, m, i - 1, x);
      if !Due(run[i].threads[t].pc, x) && !CalledIn(run, acts, t, x, b, i - 1) {
        WalkingThroughout(p, geo, run, acts, t, b, m, i - 1);
        DueStep(p, geo, run, acts, t, b, m, i, x);
      }
    }
  }

  /** A walk calls its function on each slot that holds an element until then. */
  lemma WalkMissesNothing<K>(p: KeyPolicy<K>, geo: Geometry, run: seq<State<K>>, acts: seq<nat>,
                             t: nat, b: nat, m: nat, x: nat)
    requires IsRun(p, geo, run, acts) && Walk(run, t, b, m) && Reaches(run, t, m, x)
    requires forall j :: b <= j < m ==> LiveAt(run[j], x) || CalledIn(run, acts, t, x, b, j)
    ensures CalledIn(run, acts, t, x, b, m)
  {
    DueOrCalled(p, geo, run, acts, t, b, m, m, x);
  }

  /** A slot whose content stays until it is called is called exactly if it holds an element. */
  lemma SteadySlotIsCalled<K(!new)>(p: KeyPolicy<K>, geo: Geometry, run: seq<State<K>>, acts: seq<nat>,
                                    t: nat, b: nat, m: nat, x: nat)
    requires Lawful(p) && IsRun(p, geo, run, acts) && Walk(run, t, b, m) && Reaches(run, t, m, x)
    requires forall j :: b <= j < m ==> LiveAt(run[j], x) == LiveAt(run[b], x) || CalledIn(run, acts, t, x, b, j)
    ensures CalledIn(run, acts, t, x, b, m) <==> LiveAt(run[b], x)
  {
    if LiveAt(run[b], x) {
      WalkMissesNothing(p, geo, run, acts, t, b, m, x);
    } else if CalledIn(run, acts, t, x, b, m) {
      var j: nat :| b <= j < m && CallAt(run, acts, t, x, j);
      CalledAtMostOnce(p, geo, run, acts, t, b, m, j, j, x);
      var i: nat :| b <= i < j && CallAt(run, acts, t, x, i);
      CalledAtMostOnce(p, geo, run, acts, t, b, m, i, j, x);
    }
  }
}
