/** Nobody is ever stuck: what each thread of the concurrent table can do next, in any state of any run. */
module ConcurrentProgress {
  import opened SizePolicy
  import opened Keys
  import opened Probing
  import opened ConcurrentTable
  import opened ConcurrentSteps
  import opened ConcurrentSafety
  import opened ConcurrentRuns

  lemma {:induction false} LowestExists(m: set<nat>) returns (x: nat)
    requires m != {}
    ensures Lowest(x, m)
  {
    var z :| z in m;
    x := z;
    assert forall y :: y in m ==> y == z || y in m - {z};
    if m - {z} != {} {
      var y := LowestExists(m - {z});
      x := if y < z then y else z;
    }
  }

  /** A thread with no operation in progress can begin any, on any key; an erasure asks for exclusive group access. */
  lemma CanStart<K>(p: KeyPolicy<K>, geo: Geometry, s: State<K>, t: nat, th: Thread<K>)
    requires Shaped(p, geo, s) && t < |s.threads| && s.threads[t].pc.Done?
    requires th.pc == Begin && (th.op.Erase? ==> th.excl)
    ensures Step(p, geo, s, t, s.(threads := s.threads[t := th]))
  {
    assert s.threads[t := th][t] == th;
  }

  // ----- Lookups -----

  lemma CompareCanStep<K>(p: KeyPolicy<K>, geo: Geometry, s: State<K>, t: nat) returns (s': State<K>)
    requires Shaped(p, geo, s) && t < |s.threads| && s.threads[t].pc.Compare?
    ensures CompareStep(p, geo, s, t, s')
  {
    var th, i, m := s.threads[t], s.threads[t].pc.step, s.threads[t].pc.mask;
    assert ShapedThread(p, geo, th);
    var x := LowestExists(m);
    var g := GroupAt(p, geo, th.key, i);
    if s.slots[x].Live? && p.eq(th.key, s.slots[x].key) {
      if th.op.Erase? && th.op.accepts {
        s' := At(Put(s, x, Dead(p.hash(s.slots[x].key), t)), t, EraseLoad(g, x, Nothing));
      } else {
        s' := At(s, t, Unlock(g, th.excl, HitResult(th.op)));
      }
    } else {
      s' := At(s, t, if m - {x} == {} then TestOverflow(i) else Compare(i, m - {x}));
    }
  }

  lemma LookupCanStep<K>(p: KeyPolicy<K>, geo: Geometry, s: State<K>, t: nat) returns (s': State<K>)
    requires Shaped(p, geo, s) && t < |s.threads| && Asks(p, geo, s, t)
    requires var pc := s.threads[t].pc;
             pc.Begin? || pc.Probe? || pc.Await? || pc.Compare? || pc.TestOverflow? || pc.Unlock?
    ensures LookupStep(p, geo, s, t, s')
  {
    var th := s.threads[t];
    assert ShapedThread(p, geo, th);
    match th.pc
    case Begin =>
      s' := s.(threads := s.threads[t := th.(counter := s.cnt[Home(p, geo, th.key)],
                                             pc := if th.op.Sweep? then SweepLock(0) else Probe(0))]);
    case Probe(i) =>
      var m := Matching(p, s, GroupAt(p, geo, th.key, i), Reduced(p.hash(th.key)));
      s' := At(s, t, if m == {} then TestOverflow(i) else Await(i, m));
    case Await(i, m) => s' := At(s, t, Compare(i, m));
    case Compare(_, _) => s' := CompareCanStep(p, geo, s, t);
    case TestOverflow(i) => s' := At(s, t, if Misses(p, geo, s, th) then Miss(th.op) else Probe(i + 1));
    case Unlock(_, _, r) => s' := At(s, t, Done(r));
  }

  // ----- Insertions and erasures -----

  lemma ReserveCanStep<K>(p: KeyPolicy<K>, geo: Geometry, s: State<K>, t: nat) returns (s': State<K>)
    requires Shaped(p, geo, s) && t < |s.threads| && Asks(p, geo, s, t)
    requires var pc := s.threads[t].pc;
             pc.ReserveSize? || pc.TestSize? || pc.Reject? || pc.InsLock? || pc.InsPass? || pc.InsRelease? || pc.InsGiveBack?
    ensures ReserveStep(p, geo, s, t, s')
  {
    match s.threads[t].pc
    case ReserveSize => s' := At(s.(size := s.size + 1), t, TestSize(s.size + 1));
    case TestSize(c) => s' := At(s, t, if c <= s.ml then InsLock(0) else Reject);
    case Reject => s' := At(s.(size := s.size - 1), t, Done(-1));
    case InsLock(i) => s' := At(s, t, InsScan(i));
    case InsPass(i) => s' := At(s, t, InsLock(i + 1));
    case InsRelease(_) => s' := At(s, t, InsGiveBack);
    case InsGiveBack => s' := At(s.(size := s.size - 1), t, Begin);
  }

  lemma ScanCanStep<K>(p: KeyPolicy<K>, geo: Geometry, s: State<K>, t: nat) returns (s': State<K>)
    requires Shaped(p, geo, s) && t < |s.threads| && s.threads[t].pc.InsScan?
    ensures ScanStep(p, geo, s, t, s')
  {
    var th, i := s.threads[t], s.threads[t].pc.step;
    var g, h := GroupAt(p, geo, th.key, i), p.hash(th.key);
    var m := Matching(p, s, g, 0);
    if m == {} {
      s' := At(s.(over := s.over[g := s.over[g][h % 8 := true]]), t, InsPass(i));
    } else {
      var x := LowestExists(m);
      s' := At(Put(s, x, Reserved(h, t)), t, InsCount(i, x));
    }
  }

  lemma InsertCanStep<K>(p: KeyPolicy<K>, geo: Geometry, s: State<K>, t: nat) returns (s': State<K>)
    requires Shaped(p, geo, s) && Hands(p, s.slots, s.threads) && t < |s.threads|
    requires var pc := s.threads[t].pc; pc.InsScan? || pc.InsCount? || pc.InsConstruct? || pc.InsUndo?
    ensures InsertStep(p, geo, s, t, s')
  {
    var th := s.threads[t];
    assert ShapedThread(p, geo, th);
    match th.pc
    case InsScan(_) => s' := ScanCanStep(p, geo, s, t);
    case InsCount(i, x) =>
      var home := Home(p, geo, th.key);
      var bumped := s.(cnt := s.cnt[home := s.cnt[home] + 1]);
      s' := if s.cnt[home] != th.counter then At(bumped, t, InsUndo(i, x))
            else At(Put(bumped, x, Promised(th.key, s.cnt[home], t)), t, InsConstruct(i, x));
    case InsConstruct(i, x) =>
      assert SlotInHand(th.pc) == x;
      s' := At(Put(s, x, Live(s.slots[x].key, s.slots[x].ticket)), t, Unlock(GroupAt(p, geo, th.key, i), true, 1));
    case InsUndo(i, x) => s' := At(Put(s, x, Free), t, InsRelease(i));
  }

  lemma LoadCanStep<K>(p: KeyPolicy<K>, geo: Geometry, s: State<K>, t: nat) returns (s': State<K>)
    requires Shaped(p, geo, s) && t < |s.threads| && s.threads[t].pc.EraseLoad?
    ensures EraseStep(p, geo, s, t, s')
  {
    assert ShapedThread(p, geo, s.threads[t]);
    var EraseLoad(g, x, rest) := s.threads[t].pc;
    var lower := s.over[g][Tag(p, s.slots[x]) % 8];
    s' := At(s.(ml := if lower then s.ml - 1 else s.ml), t, EraseReset(g, x, lower, rest));
  }

  lemma EraseCanStep<K>(p: KeyPolicy<K>, geo: Geometry, s: State<K>, t: nat) returns (s': State<K>)
    requires Shaped(p, geo, s) && t < |s.threads|
    requires var pc := s.threads[t].pc; pc.EraseLoad? || pc.EraseReset? || pc.EraseSize?
    ensures EraseStep(p, geo, s, t, s')
  {
    var pc := s.threads[t].pc;
    assert ShapedThread(p, geo, s.threads[t]);
    if pc.EraseLoad? {
      s' := LoadCanStep(p, geo, s, t);
    } else if pc.EraseReset? {
      s' := At(Put(s, pc.slot, Free), t, EraseSize(pc.group, pc.rest));
    } else {
      s' := At(s.(size := s.size - 1), t,
               if pc.rest.More? then SweepNext(pc.group, pc.rest.mask) else Unlock(pc.group, true, 1));
    }
  }

  // ----- Walks -----

  /** What the function called by a walk may do with the element it is given. */
  datatype Verdict = GoOn | End | EraseIt

  /** The state after the function was called on slot `x` and has decided. */
  function Obeyed<K>(p: KeyPolicy<K>, s: State<K>, t: nat, x: nat, verdict: Verdict): State<K>
    requires t < |s.threads| && s.threads[t].pc.SweepNext? && x < |s.slots| && s.slots[x].Live?
  {
    var SweepNext(g, m) := s.threads[t].pc;
    match verdict
    case GoOn => At(s, t, SweepNext(g, m - {x}))
    case End => At(s, t, Done(0))
    case EraseIt => At(Put(s, x, Dead(p.hash(s.slots[x].key), t)), t, EraseLoad(g, x, More(m - {x})))
  }

  /** Whatever the function decides about the next element, the walk can do; it erases where it has exclusive access. */
  lemma WalkCanObey<K>(p: KeyPolicy<K>, geo: Geometry, s: State<K>, t: nat, verdict: Verdict) returns (x: nat)
    requires Shaped(p, geo, s) && Swept(s) && t < |s.threads| && s.threads[t].pc.SweepNext? && s.threads[t].pc.mask != {}
    requires verdict.EraseIt? ==> s.threads[t].excl
    ensures Lowest(x, s.threads[t].pc.mask) && x < |s.slots| && s.slots[x].Live?
    ensures SweepStep(p, geo, s, t, Obeyed(p, s, t, x, verdict))
  {
    x := LowestExists(s.threads[t].pc.mask);
    assert SweptBy(s.slots, s.threads[t]);
    assert CallOn(p, s, t, x, Obeyed(p, s, t, x, verdict));
  }

  lemma SweepCanStep<K>(p: KeyPolicy<K>, geo: Geometry, s: State<K>, t: nat) returns (s': State<K>)
    requires Shaped(p, geo, s) && Swept(s) && t < |s.threads| && Asks(p, geo, s, t)
    requires var pc := s.threads[t].pc; pc.SweepLock? || pc.SweepScan? || pc.SweepNext?
    ensures SweepStep(p, geo, s, t, s')
  {
    var pc := s.threads[t].pc;
    assert ShapedThread(p, geo, s.threads[t]);
    if pc.SweepLock? {
      s' := At(s, t, SweepScan(pc.group));
    } else if pc.SweepScan? {
      s' := At(s, t, SweepNext(pc.group, Occupied(p, s, pc.group)));
    } else if pc.mask == {} {
      s' := At(s, t, if pc.group + 1 < geo.groups then SweepLock(pc.group + 1) else Done(0));
    } else {
      var x := WalkCanObey(p, geo, s, t, GoOn);
      s' := Obeyed(p, s, t, x, GoOn);
    }
  }

  // ----- Any thread -----

  /** A thread inside an operation has a next step, unless it asks for a group lock that cannot be granted. */
  lemma CanStep<K>(p: KeyPolicy<K>, geo: Geometry, s: State<K>, t: nat) returns (s': State<K>)
    requires Safe(p, geo, s) && t < |s.threads| && !s.threads[t].pc.Done? && Asks(p, geo, s, t)
    ensures Step(p, geo, s, t, s')
  {
    var pc := s.threads[t].pc;
    if pc.Begin? || pc.Probe? || pc.Await? || pc.Compare? || pc.TestOverflow? || pc.Unlock? {
      s' := LookupCanStep(p, geo, s, t);
    } else if pc.InsScan? || pc.InsCount? || pc.InsConstruct? || pc.InsUndo? {
      s' := InsertCanStep(p, geo, s, t);
    } else if pc.EraseLoad? || pc.EraseReset? || pc.EraseSize? {
      s' := EraseCanStep(p, geo, s, t);
    } else if pc.SweepLock? || pc.SweepScan? || pc.SweepNext? {
      s' := SweepCanStep(p, geo, s, t);
    } else {
      s' := ReserveCanStep(p, geo, s, t);
    }
  }

  /** The same in every state of every run. */
  lemma NobodyIsStuck<K(!new)>(p: KeyPolicy<K>, geo: Geometry, run: seq<State<K>>, acts: seq<nat>, i: nat, t: nat)
    returns (s': State<K>)
    requires Lawful(p) && IsRun(p, geo, run, acts) && i < |run|
    requires t < |run[i].threads| && !run[i].threads[t].pc.Done? && Asks(p, geo, run[i], t)
    ensures Next(p, geo, run[i], t, s')
  {
    RunInv(p, geo, run, acts, i);
    s' := CanStep(p, geo, run[i], t);
    StepMovesOne(p, geo, run[i], t, s');
  }

  /** No deadlock: while some thread is inside an operation, one of those has a next step. */
  lemma SomeoneCanStep<K(!new)>(p: KeyPolicy<K>, geo: Geometry, run: seq<State<K>>, acts: seq<nat>, i: nat, t: nat)
    returns (u: nat, s': State<K>)
    requires Lawful(p) && IsRun(p, geo, run, acts) && i < |run|
    requires t < |run[i].threads| && !run[i].threads[t].pc.Done?
    ensures Next(p, geo, run[i], u, s') && !run[i].threads[u].pc.Done?
  {
    u := t;
    RunInv(p, geo, run, acts, i);
    if !Asks(p, geo, run[i], t) {
      u := Holder(p, geo, run[i], t);
    }
    s' := NobodyIsStuck(p, geo, run, acts, i, u);
  }

  /** Whoever keeps a thread out of a group is in it, and so asks for no lock itself. */
  lemma Holder<K>(p: KeyPolicy<K>, geo: Geometry, s: State<K>, t: nat) returns (u: nat)
    requires t < |s.threads| && !Asks(p, geo, s, t)
    ensures u < |s.threads| && !s.threads[u].pc.Done? && Asks(p, geo, s, u)
  {
    var g := AskedGroup(p, geo, s.threads[t]);
    u :| 0 <= u < |s.threads| && u != t && HeldGroup(p, geo, s.threads[u]) == g;
  }

  /** The group a thread asks for, or -1. */
  function AskedGroup<K>(p: KeyPolicy<K>, geo: Geometry, th: Thread<K>): int {
    match th.pc
    case Await(i, _) => GroupAt(p, geo, th.key, i)
    case InsLock(i) => GroupAt(p, geo, th.key, i)
    case SweepLock(g) => g
    case _ => -1
  }

  /** Whether it asks to be alone there. */
  predicate AsksExclusively<K>(th: Thread<K>) {
    th.pc.InsLock? || th.excl
  }

  /** A group lock is granted exactly when no other thread is in the group, or all there, and who asks, share it. */
  lemma GrantedIff<K>(p: KeyPolicy<K>, geo: Geometry, s: State<K>, t: nat)
    requires t < |s.threads| && AskedGroup(p, geo, s.threads[t]) >= 0
    ensures Asks(p, geo, s, t)
       <==> forall u :: 0 <= u < |s.threads| && u != t
                        && HeldGroup(p, geo, s.threads[u]) == AskedGroup(p, geo, s.threads[t]) ==>
                          !AsksExclusively(s.threads[t]) && !Exclusively(s.threads[u])
  {
  }

  // ----- How far a lookup goes -----

  /** A lookup goes on to the next group exactly if there is one and the group passed is marked for its hash. */
  lemma LookupGoesOnIff<K>(p: KeyPolicy<K>, geo: Geometry, s: State<K>, t: nat, s': State<K>)
    requires Next(p, geo, s, t, s') && s.threads[t].pc.TestOverflow?
    ensures var th, i := s.threads[t], s.threads[t].pc.step;
            if OverBit(s.over, GroupAt(p, geo, th.key, i), p.hash(th.key)) && i + 1 < geo.groups
            then s'.threads[t].pc == Probe(i + 1)
            else s'.threads[t].pc == if th.op.Insert? then ReserveSize else Done(0)
  {
  }

  // ----- One group at a time -----

  /** Slots are recovered under exclusive access. */
  predicate RecoversAlone<K>(th: Thread<K>) {
    th.pc.EraseLoad? || th.pc.EraseReset? || th.pc.EraseSize? ==> th.excl
  }

  lemma RecoversOn<K>(p: KeyPolicy<K>, geo: Geometry, th: Thread<K>, th': Thread<K>)
    requires ThreadFlows(p, geo, th, th') && RecoversAlone(th) && (th.op.Erase? ==> th.excl)
    ensures RecoversAlone(th')
  {
  }

  ghost predicate AllRecoverAlone<K>(threads: seq<Thread<K>>) {
    forall t :: 0 <= t < |threads| ==> RecoversAlone(threads[t])
  }

  lemma {:induction false} RecoverAloneAlways<K(!new)>(p: KeyPolicy<K>, geo: Geometry, run: seq<State<K>>, acts: seq<nat>, i: nat)
    requires Lawful(p) && IsRun(p, geo, run, acts) && i < |run|
    ensures AllRecoverAlone(run[i].threads)
  {
    if i > 0 {
      RecoverAloneAlways(p, geo, run, acts, i - 1);
      RecoverAloneInto(p, geo, run, acts, i);
    }
  }

  lemma RecoverAloneInto<K(!new)>(p: KeyPolicy<K>, geo: Geometry, run: seq<State<K>>, acts: seq<nat>, i: nat)
    requires Lawful(p) && IsRun(p, geo, run, acts) && 0 < i < |run| && AllRecoverAlone(run[i - 1].threads)
    ensures AllRecoverAlone(run[i].threads)
  {
    MovedInto(p, geo, run, acts, i);
    RecoversOn(p, geo, run[i - 1].threads[acts[i - 1]], run[i].threads[acts[i - 1]]);
  }

  lemma MovedInto<K(!new)>(p: KeyPolicy<K>, geo: Geometry, run: seq<State<K>>, acts: seq<nat>, i: nat)
    requires Lawful(p) && IsRun(p, geo, run, acts) && 0 < i < |run|
    ensures MovesOne(p, geo, run[i - 1], acts[i - 1], run[i]) && Next(p, geo, run[i - 1], acts[i - 1], run[i])
    ensures run[i - 1].threads[acts[i - 1]].op.Erase? ==> run[i - 1].threads[acts[i - 1]].excl
  {
    RunInv(p, geo, run, acts, i - 1);
    StepInto(p, geo, run, acts, i);
    StepMovesOne(p, geo, run[i - 1], acts[i - 1], run[i]);
  }

  /** How the group lock a thread has changes as it goes on: taken as asked for, kept in the same mode, or released. */
  ghost predicate LockMoves<K>(p: KeyPolicy<K>, geo: Geometry, th: Thread<K>, th': Thread<K>) {
    var a, b := HeldGroup(p, geo, th), HeldGroup(p, geo, th');
    && (a >= 0 && b >= 0 ==> a == b && Exclusively(th') == Exclusively(th))
    && (a < 0 && b >= 0 ==> b == AskedGroup(p, geo, th) && Exclusively(th') == AsksExclusively(th))
  }

  lemma FlowMovesLock<K>(p: KeyPolicy<K>, geo: Geometry, th: Thread<K>, th': Thread<K>)
    requires ThreadFlows(p, geo, th, th') && RecoversAlone(th) && RecoversAlone(th') && (th.op.Erase? ==> th.excl)
    requires !th.pc.Done? && (th.pc.Compare? && th'.pc.Unlock? ==> th'.pc.excl == th.excl)
    requires th.pc.InsConstruct? || th.pc.EraseSize? ==> th'.pc.Unlock? ==> th'.pc.excl
    ensures LockMoves(p, geo, th, th')
  {
  }

  lemma UnlockKeepsMode<K>(p: KeyPolicy<K>, geo: Geometry, s: State<K>, t: nat, s': State<K>)
    requires Next(p, geo, s, t, s') && s'.threads[t].pc.Unlock?
    ensures s.threads[t].pc.Compare? ==> s'.threads[t].pc.excl == s.threads[t].excl
    ensures s.threads[t].pc.InsConstruct? || s.threads[t].pc.EraseSize? ==> s'.threads[t].pc.excl
  {
    var pc := s.threads[t].pc;
    if pc.Compare? {
      CompareSteps(p, geo, s, t, s');
    } else if pc.InsConstruct? || pc.EraseSize? {
      ChangesSteps(p, geo, s, t, s');
    }
  }

  lemma ChangesSteps<K>(p: KeyPolicy<K>, geo: Geometry, s: State<K>, t: nat, s': State<K>)
    requires Next(p, geo, s, t, s') && (s.threads[t].pc.InsConstruct? || s.threads[t].pc.EraseSize?)
    ensures Shaped(p, geo, s) && (InsertStep(p, geo, s, t, s') || EraseStep(p, geo, s, t, s'))
  {
  }

  lemma CompareSteps<K>(p: KeyPolicy<K>, geo: Geometry, s: State<K>, t: nat, s': State<K>)
    requires Next(p, geo, s, t, s') && s.threads[t].pc.Compare?
    ensures Shaped(p, geo, s) && CompareStep(p, geo, s, t, s')
  {
  }

  /** A thread takes the group lock it asked for, in that mode, and keeps it in that mode until it releases it. */
  lemma LockIsKept<K(!new)>(p: KeyPolicy<K>, geo: Geometry, run: seq<State<K>>, acts: seq<nat>, i: nat)
    requires Lawful(p) && IsRun(p, geo, run, acts) && 0 < i < |run|
    ensures var t := acts[i - 1];
            t < |run[i - 1].threads| && t < |run[i].threads|
            && (run[i - 1].threads[t].pc.Done? || LockMoves(p, geo, run[i - 1].threads[t], run[i].threads[t]))
  {
    var t := acts[i - 1];
    RecoverAloneAlways(p, geo, run, acts, i - 1);
    MovedInto(p, geo, run, acts, i);
    var th, th' := run[i - 1].threads[t], run[i].threads[t];
    if !th.pc.Done? {
      RecoversOn(p, geo, th, th');
      if th'.pc.Unlock? {
        UnlockKeepsMode(p, geo, run[i - 1], t, run[i]);
      }
      FlowMovesLock(p, geo, th, th');
    }
  }
}
