/** Whole operations of the concurrent table: each takes effect at one moment between start and end, or not at all. */
module ConcurrentOperations {
  import opened SizePolicy
  import opened Keys
  import opened Probing
  import opened ConcurrentTable
  import opened ConcurrentSteps
  import opened ConcurrentSafety
  import opened ConcurrentUniqueness
  import opened ConcurrentRuns
  import opened ConcurrentEffects

  // ----- Where an operation stands -----

  /** The program counters an operation on a single key goes through. */
  predicate Fits(op: Op, pc: PC) {
    match pc
    case Done(r) =>
      match op {
        case Insert => -1 <= r <= 1
        case Erase(accepts) => 0 <= r <= if accepts then 1 else 0
        case _ => 0 <= r <= 1
      }
    case Begin => true
    case Probe(_) => true
    case Await(_, _) => true
    case Compare(_, _) => true
    case TestOverflow(_) => true
    case Unlock(_, _, r) =>
      match op {
        case Visit => r == 1
        case Erase(accepts) => r == if accepts then 1 else 0
        case _ => 0 <= r <= 1
      }
    case EraseLoad(_, _, rest) => op.Erase? && op.accepts && rest.Nothing?
    case EraseReset(_, _, _, rest) => op.Erase? && op.accepts && rest.Nothing?
    case EraseSize(_, rest) => op.Erase? && op.accepts && rest.Nothing?
    case SweepLock(_) => false
    case SweepScan(_) => false
    case SweepNext(_, _) => false
    case _ => op.Insert?
  }

  /** How often the operation has changed the set of keys so far. */
  function Effects(op: Op, pc: PC): int {
    match pc
    case InsConstruct(_, _) => 1
    case EraseLoad(_, _, _) => 1
    case EraseReset(_, _, _, _) => 1
    case EraseSize(_, _) => 1
    case Unlock(_, _, r) => if !op.Visit? && r == 1 then 1 else 0
    case Done(r) => if !op.Visit? && r == 1 then 1 else 0
    case _ => 0
  }

  predicate SameTask<K(==)>(a: Thread<K>, b: Thread<K>) { a.op == b.op && a.key == b.key }

  /** A step of its own takes an operation along, and counts if it is one that takes effect. */
  predicate GoesOn<K(==)>(th: Thread<K>, th': Thread<K>) {
    && SameTask(th, th')
    && Fits(th'.op, th'.pc)
    && Effects(th'.op, th'.pc) == Effects(th.op, th.pc) + if TakesEffect(th'.pc) then 1 else 0
  }

  predicate Working<K>(th: Thread<K>) { !th.op.Sweep? && !th.pc.Done? && Fits(th.op, th.pc) }

  lemma FlowGoesOn<K>(p: KeyPolicy<K>, geo: Geometry, th: Thread<K>, th': Thread<K>)
    requires ThreadFlows(p, geo, th, th') && Working(th)
    ensures GoesOn(th, th')
  {
  }

  // ----- Stretches of a run -----

  /** The steps of thread `t` from state `b` to state `i` that change the set of keys. */
  ghost function EffectCount<K>(run: seq<State<K>>, acts: seq<nat>, t: nat, b: nat, i: nat): int
    requires i < |run| == |acts| + 1
  {
    if i <= b then 0
    else EffectCount(run, acts, t, b, i - 1) + if EffectAt(run, acts, t, i - 1) then 1 else 0
  }

  ghost predicate EffectAt<K>(run: seq<State<K>>, acts: seq<nat>, t: nat, j: nat)
    requires j + 1 < |run| == |acts| + 1
  {
    acts[j] == t && t < |run[j + 1].threads| && TakesEffect(run[j + 1].threads[t].pc)
  }

  /** Thread `t` carries out one operation on a single key, from state `b` up to state `m`. */
  ghost predicate Busy<K>(run: seq<State<K>>, t: nat, b: nat, m: nat) {
    && b <= m < |run|
    && (forall i :: b <= i <= m ==> t < |run[i].threads|)
    && run[b].threads[t].pc.Begin? && !run[b].threads[t].op.Sweep?
    && (forall i :: b <= i < m ==> !run[i].threads[t].pc.Done?)
  }

  /** What is known of the operation in state `i`. */
  ghost predicate Stands<K>(run: seq<State<K>>, acts: seq<nat>, t: nat, b: nat, i: nat)
    requires i < |run| == |acts| + 1 && b < |run|
  {
    && t < |run[b].threads| && t < |run[i].threads|
    && SameTask(run[b].threads[t], run[i].threads[t])
    && Fits(run[i].threads[t].op, run[i].threads[t].pc)
    && EffectCount(run, acts, t, b, i) == Effects(run[i].threads[t].op, run[i].threads[t].pc)
  }

  /** A step of the thread itself, or of another. */
  lemma StandsOn<K>(p: KeyPolicy<K>, geo: Geometry, run: seq<State<K>>, acts: seq<nat>, t: nat, b: nat, i: nat)
    requires b < i && MovedAt(p, geo, run, acts, i - 1)
    requires Stands(run, acts, t, b, i - 1) && Working(run[i - 1].threads[t])
    ensures Stands(run, acts, t, b, i)
  {
    if acts[i - 1] == t {
      FlowGoesOn(p, geo, run[i - 1].threads[t], run[i].threads[t]);
    }
  }

  /** Step `i` moves its own thread. */
  ghost predicate MovedAt<K>(p: KeyPolicy<K>, geo: Geometry, run: seq<State<K>>, acts: seq<nat>, i: nat) {
    i + 1 < |run| == |acts| + 1 && MovesOne(p, geo, run[i], acts[i], run[i + 1])
  }

  ghost predicate Stretch<K>(p: KeyPolicy<K>, geo: Geometry, run: seq<State<K>>, acts: seq<nat>, b: nat, i: nat) {
    |run| == |acts| + 1 && i < |run| && forall j :: b <= j < i ==> MovedAt(p, geo, run, acts, j)
  }

  lemma RunIsStretch<K>(p: KeyPolicy<K>, geo: Geometry, run: seq<State<K>>, acts: seq<nat>, b: nat, i: nat)
    requires IsRun(p, geo, run, acts) && i < |run|
    ensures Stretch(p, geo, run, acts, b, i)
  {
    forall j | b <= j < i ensures MovedAt(p, geo, run, acts, j) {
      assert StepAt(p, geo, run, acts, j);
      StepMovesOne(p, geo, run[j], acts[j], run[j + 1]);
    }
  }

  lemma {:induction false} StandsThroughout<K>(p: KeyPolicy<K>, geo: Geometry, run: seq<State<K>>, acts: seq<nat>,
                                               t: nat, b: nat, i: nat)
    requires Stretch(p, geo, run, acts, b, i) && Busy(run, t, b, i)
    ensures Stands(run, acts, t, b, i)
    decreases i
  {
    if i > b {
      StandsThroughout(p, geo, run, acts, t, b, i - 1);
      assert MovedAt(p, geo, run, acts, i - 1);
      StandsOn(p, geo, run, acts, t, b, i);
    }
  }

  // ----- Moments -----

  /** At step `j` thread `t` finds an element with its key, present at that moment, and is done with it. */
  ghost predicate Hit<K>(p: KeyPolicy<K>, run: seq<State<K>>, acts: seq<nat>, t: nat, k: K, j: nat)
    requires j + 1 < |run| == |acts| + 1
  {
    && acts[j] == t < |run[j].threads| == |run[j + 1].threads|
    && run[j].threads[t].pc.Compare? && run[j + 1].threads[t].pc.Unlock?
    && Present(p, run[j], k)
  }

  ghost predicate SomeHit<K>(p: KeyPolicy<K>, run: seq<State<K>>, acts: seq<nat>, t: nat, k: K, b: nat, m: nat)
    requires m < |run| == |acts| + 1
  {
    exists j :: b <= j < m && Hit(p, run, acts, t, k, j)
  }

  ghost predicate SomeAbsent<K>(p: KeyPolicy<K>, run: seq<State<K>>, k: K, b: nat, m: nat)
    requires m < |run|
  {
    exists j :: b <= j <= m && !Present(p, run[j], k)
  }

  /** The thread finds its claim on the size above the maximum load. */
  ghost predicate Refused<K>(s: State<K>, t: nat) {
    t < |s.threads| && s.threads[t].pc.TestSize? && s.threads[t].pc.claim > s.ml
  }

  ghost predicate SomeRefused<K>(run: seq<State<K>>, t: nat, b: nat, m: nat)
    requires m < |run|
  {
    exists j :: b <= j <= m && Refused(run[j], t)
  }

  /** The answer that is about to be given, or has been given, in state `i` is backed by a moment from `b` to `m`. */
  ghost predicate Backed<K>(p: KeyPolicy<K>, run: seq<State<K>>, acts: seq<nat>, t: nat, b: nat, m: nat, th: Thread<K>)
    requires m < |run| == |acts| + 1
  {
    match th.pc
    case Unlock(_, _, r) => r == (if th.op.Visit? then 1 else 0) ==> SomeHit(p, run, acts, t, th.key, b, m)
    case ReserveSize => SomeAbsent(p, run, th.key, b, m)
    case TestSize(_) => SomeAbsent(p, run, th.key, b, m)
    case Reject => SomeRefused(run, t, b, m) && SomeAbsent(p, run, th.key, b, m)
    case Done(r) =>
      && (r == -1 ==> SomeRefused(run, t, b, m) && SomeAbsent(p, run, th.key, b, m))
      && (r == (if th.op.Visit? then 1 else 0) ==>
            || (SomeHit(p, run, acts, t, th.key, b, m) && !(th.op.Erase? && th.op.accepts))
            || (th.op.Erase? && SomeAbsent(p, run, th.key, b, m)))
      && (r == 0 && th.op.Visit? ==> SomeAbsent(p, run, th.key, b, m))
    case _ => true
  }

  lemma HitBacked<K(!new)>(p: KeyPolicy<K>, geo: Geometry, run: seq<State<K>>, acts: seq<nat>,
                           t: nat, b: nat, m: nat, i: nat)
    requires b < i <= m < |run| && StepAt(p, geo, run, acts, i - 1) && acts[i - 1] == t
    requires run[i - 1].threads[t].pc.Compare? && run[i].threads[t].pc.Unlock?
    ensures SomeHit(p, run, acts, t, run[i - 1].threads[t].key, b, m)
  {
    HitIsPresent(p, geo, run[i - 1], t, run[i]);
    assert Hit(p, run, acts, t, run[i - 1].threads[t].key, i - 1);
  }

  lemma RejectBacked<K>(p: KeyPolicy<K>, geo: Geometry, run: seq<State<K>>, acts: seq<nat>,
                        t: nat, b: nat, m: nat, i: nat)
    requires b < i <= m < |run| && StepAt(p, geo, run, acts, i - 1) && acts[i - 1] == t
    requires run[i - 1].threads[t].pc.TestSize? && run[i].threads[t].pc.Reject?
    ensures SomeRefused(run, t, b, m)
  {
    assert Refused(run[i - 1], t);
  }

  lemma MissEnds<K>(p: KeyPolicy<K>, geo: Geometry, s: State<K>, t: nat, s': State<K>)
    requires Next(p, geo, s, t, s') && s.threads[t].pc.TestOverflow? && !s'.threads[t].pc.Probe?
    ensures Shaped(p, geo, s) && Misses(p, geo, s, s.threads[t])
  {
  }

  /** The kinds of steps that lead to an answer. */
  predicate AnswerFrom(op: Op, pc: PC, pc': PC) {
    match pc'
    case ReserveSize => pc.TestOverflow?
    case TestSize(_) => pc.ReserveSize?
    case Reject => pc.TestSize?
    case Done(r) =>
      || (pc == Reject && r == -1)
      || (pc.Unlock? && pc.result == r)
      || (pc.TestOverflow? && r == 0 && !op.Insert?)
    case Unlock(_, _, r) => pc.Compare? || (r == 1 && !op.Visit?)
    case _ => true
  }

  lemma FlowAnswers<K>(th: Thread<K>, pc': PC)
    requires Working(th) && Flows(th.op, th.pc, pc')
    ensures AnswerFrom(th.op, th.pc, pc')
  {
  }

  /** A thread inside a lookup came there from its start through lookup steps only. */
  lemma FlowsFromLookup(op: Op, pc: PC, pc': PC)
    requires Flows(op, pc, pc') && InLookup(pc')
    ensures pc.Begin? || InLookup(pc)
  {
  }

  lemma {:induction false} LastBegin<K>(p: KeyPolicy<K>, geo: Geometry, run: seq<State<K>>, acts: seq<nat>,
                                        t: nat, b: nat, i: nat) returns (a: nat)
    requires Stretch(p, geo, run, acts, b, i) && Busy(run, t, b, i) && InLookup(run[i].threads[t].pc)
    ensures b <= a < i && LookupSpan(run, a, i, t)
    decreases i
  {
    assert MovedAt(p, geo, run, acts, i - 1);
    if acts[i - 1] == t {
      FlowsFromLookup(run[i - 1].threads[t].op, run[i - 1].threads[t].pc, run[i].threads[t].pc);
    }
    if run[i - 1].threads[t].pc.Begin? {
      a := i - 1;
    } else {
      a := LastBegin(p, geo, run, acts, t, b, i - 1);
    }
  }

  /** The start of the lookup a thread is in; the key is the same throughout. */
  lemma LookupStart<K>(p: KeyPolicy<K>, geo: Geometry, run: seq<State<K>>, acts: seq<nat>, t: nat, b: nat, i: nat)
    returns (a: nat)
    requires IsRun(p, geo, run, acts) && Busy(run, t, b, i) && InLookup(run[i].threads[t].pc)
    ensures b <= a < i && LookupSpan(run, a, i, t) && run[a].threads[t].key == run[i].threads[t].key
  {
    RunIsStretch(p, geo, run, acts, b, i);
    a := LastBegin(p, geo, run, acts, t, b, i);
    StandsThroughout(p, geo, run, acts, t, b, i);
    StandsThroughout(p, geo, run, acts, t, b, a);
  }

  /** A lookup about to report a miss has seen its key absent. */
  lemma MissBacked<K(!new)>(p: KeyPolicy<K>, geo: Geometry, run: seq<State<K>>, acts: seq<nat>,
                            t: nat, b: nat, m: nat, i: nat)
    requires Lawful(p) && IsRun(p, geo, run, acts) && b < i <= m < |run| && Busy(run, t, b, i - 1)
    requires StepAt(p, geo, run, acts, i - 1) && acts[i - 1] == t
    requires run[i - 1].threads[t].pc.TestOverflow? && !run[i].threads[t].pc.Probe?
    ensures SomeAbsent(p, run, run[i - 1].threads[t].key, b, m)
  {
    MissEnds(p, geo, run[i - 1], t, run[i]);
    var a := LookupStart(p, geo, run, acts, t, b, i - 1);
    var j := MissWasAbsent(p, geo, run, acts, a, i - 1, t);
    assert !Present(p, run[j], run[i - 1].threads[t].key);
  }

  /** An answer backed stays so; a new one is, if the step it comes from is. */
  lemma AnswerBacked<K>(p: KeyPolicy<K>, run: seq<State<K>>, acts: seq<nat>, t: nat, b: nat, m: nat,
                        th: Thread<K>, th': Thread<K>)
    requires m < |run| == |acts| + 1 && Backed(p, run, acts, t, b, m, th)
    requires SameTask(th, th') && Working(th) && AnswerFrom(th.op, th.pc, th'.pc)
    requires th.pc.Compare? && th'.pc.Unlock? ==> SomeHit(p, run, acts, t, th.key, b, m)
    requires th.pc.TestOverflow? && !th'.pc.Probe? ==> SomeAbsent(p, run, th.key, b, m)
    requires th'.pc.Reject? ==> SomeRefused(run, t, b, m)
    ensures Backed(p, run, acts, t, b, m, th')
  {
  }

  lemma BackedOn<K(!new)>(p: KeyPolicy<K>, geo: Geometry, run: seq<State<K>>, acts: seq<nat>,
                          t: nat, b: nat, m: nat, i: nat)
    requires Lawful(p) && IsRun(p, geo, run, acts) && b < i <= m < |run| && Busy(run, t, b, i)
    requires Working(run[i - 1].threads[t]) && Backed(p, run, acts, t, b, m, run[i - 1].threads[t])
    requires MovedAt(p, geo, run, acts, i - 1) && acts[i - 1] == t
    ensures Backed(p, run, acts, t, b, m, run[i].threads[t])
  {
    var th, th' := run[i - 1].threads[t], run[i].threads[t];
    assert StepAt(p, geo, run, acts, i - 1);
    FlowGoesOn(p, geo, th, th');
    FlowAnswers(th, th'.pc);
    if th.pc.Compare? && th'.pc.Unlock? {
      HitBacked(p, geo, run, acts, t, b, m, i);
    } else if th.pc.TestOverflow? && !th'.pc.Probe? {
      MissBacked(p, geo, run, acts, t, b, m, i);
    } else if th'.pc.Reject? {
      RejectBacked(p, geo, run, acts, t, b, m, i);
    }
    AnswerBacked(p, run, acts, t, b, m, th, th');
  }

  lemma {:induction false} BackedThroughout<K(!new)>(p: KeyPolicy<K>, geo: Geometry, run: seq<State<K>>, acts: seq<nat>,
                                                     t: nat, b: nat, m: nat, i: nat)
    requires Lawful(p) && IsRun(p, geo, run, acts) && i <= m < |run| && Busy(run, t, b, i)
    requires Stretch(p, geo, run, acts, b, m)
    ensures Backed(p, run, acts, t, b, m, run[i].threads[t])
    decreases i
  {
    if i > b {
      BackedThroughout(p, geo, run, acts, t, b, m, i - 1);
      StandsThroughout(p, geo, run, acts, t, b, i - 1);
      assert MovedAt(p, geo, run, acts, i - 1);
      if acts[i - 1] == t {
        BackedOn(p, geo, run, acts, t, b, m, i);
      }
    }
  }

  // ----- Effects -----

  /** The step with which the thread changed the set of keys, if it did. */
  lemma {:induction false} EffectIndex<K>(run: seq<State<K>>, acts: seq<nat>, t: nat, b: nat, i: nat) returns (j: nat)
    requires i < |run| == |acts| + 1 && EffectCount(run, acts, t, b, i) > 0
    ensures b <= j < i && EffectAt(run, acts, t, j)
  {
    if EffectAt(run, acts, t, i - 1) {
      j := i - 1;
    } else {
      j := EffectIndex(run, acts, t, b, i - 1);
    }
  }

  lemma {:induction false} EffectsAre<K>(run: seq<State<K>>, acts: seq<nat>, t: nat, b: nat, i: nat, j: nat)
    requires i < |run| == |acts| + 1 && b <= j < i && EffectAt(run, acts, t, j)
    ensures EffectCount(run, acts, t, b, i) >= 1
    ensures forall l :: b <= l < i && l != j && EffectAt(run, acts, t, l) ==> EffectCount(run, acts, t, b, i) >= 2
  {
    NoNegativeCount(run, acts, t, b, i - 1);
    if j < i - 1 {
      EffectsAre(run, acts, t, b, i - 1, j);
    } else {
      forall l | b <= l < i - 1 && EffectAt(run, acts, t, l) ensures EffectCount(run, acts, t, b, i - 1) >= 1 {
        EffectsAre(run, acts, t, b, i - 1, l);
      }
    }
  }

  lemma {:induction false} NoNegativeCount<K>(run: seq<State<K>>, acts: seq<nat>, t: nat, b: nat, i: nat)
    requires i < |run| == |acts| + 1
    ensures EffectCount(run, acts, t, b, i) >= 0
  {
    if i > b {
      NoNegativeCount(run, acts, t, b, i - 1);
    }
  }

  /** No step of the thread between `b` and `m`, but the one at `j`, changes the set of keys. */
  ghost predicate QuietBut<K(!new)>(p: KeyPolicy<K>, run: seq<State<K>>, acts: seq<nat>, t: nat, b: nat, m: nat, j: int)
    requires m < |run| == |acts| + 1
  {
    forall i :: b <= i < m && acts[i] == t && i != j ==> Keeps(p, run[i], run[i + 1])
  }

  lemma QuietSteps<K(!new)>(p: KeyPolicy<K>, geo: Geometry, run: seq<State<K>>, acts: seq<nat>,
                            t: nat, b: nat, m: nat, j: int)
    requires Lawful(p) && IsRun(p, geo, run, acts) && m < |run|
    requires forall i :: b <= i < m && i != j ==> !EffectAt(run, acts, t, i)
    ensures QuietBut(p, run, acts, t, b, m, j)
  {
    forall i | b <= i < m && acts[i] == t && i != j ensures Keeps(p, run[i], run[i + 1]) {
      RunInv(p, geo, run, acts, i);
      assert StepAt(p, geo, run, acts, i);
      assert !EffectAt(run, acts, t, i);
      OtherStepsKeepElements(p, geo, run[i], t, run[i + 1]);
    }
  }

  /** What the one step of an operation that takes effect does to the set of keys. */
  ghost predicate HasEffect<K(!new)>(p: KeyPolicy<K>, s: State<K>, s': State<K>, op: Op, k: K) {
    match op
    case Insert => Adds(p, s, s', k)
    case Erase(_) => Removes(p, s, s', k)
    case _ => false
  }

  lemma EffectOfStep<K(!new)>(p: KeyPolicy<K>, geo: Geometry, s: State<K>, t: nat, s': State<K>)
    requires Lawful(p) && Inv(p, geo, s) && Next(p, geo, s, t, s') && TakesEffect(s'.threads[t].pc)
    requires Working(s.threads[t])
    ensures HasEffect(p, s, s', s.threads[t].op, s.threads[t].key)
  {
    StepMovesOne(p, geo, s, t, s');
    FlowGoesOn(p, geo, s.threads[t], s'.threads[t]);
    if s'.threads[t].pc.InsConstruct? {
      InsertTakesEffect(p, geo, s, t, s');
    } else {
      EraseTakesEffect(p, geo, s, t, s');
    }
  }

  lemma SomeEffect<K(!new)>(p: KeyPolicy<K>, geo: Geometry, run: seq<State<K>>, acts: seq<nat>,
                            t: nat, b: nat, m: nat) returns (j: nat)
    requires Lawful(p) && IsRun(p, geo, run, acts) && Busy(run, t, b, m) && EffectCount(run, acts, t, b, m) == 1
    requires Stretch(p, geo, run, acts, b, m)
    ensures b <= j < m && EffectAt(run, acts, t, j) && QuietBut(p, run, acts, t, b, m, j)
    ensures HasEffect(p, run[j], run[j + 1], run[b].threads[t].op, run[b].threads[t].key)
  {
    j := EffectIndex(run, acts, t, b, m);
    EffectsAre(run, acts, t, b, m, j);
    QuietSteps(p, geo, run, acts, t, b, m, j);
    RunInv(p, geo, run, acts, j);
    StandsThroughout(p, geo, run, acts, t, b, j);
    assert StepAt(p, geo, run, acts, j);
    EffectOfStep(p, geo, run[j], t, run[j + 1]);
  }

  lemma NoEffect<K(!new)>(p: KeyPolicy<K>, geo: Geometry, run: seq<State<K>>, acts: seq<nat>, t: nat, b: nat, m: nat)
    requires Lawful(p) && IsRun(p, geo, run, acts) && m < |run| && EffectCount(run, acts, t, b, m) == 0
    ensures QuietBut(p, run, acts, t, b, m, -1)
  {
    forall i | b <= i < m ensures !EffectAt(run, acts, t, i) {
      if EffectAt(run, acts, t, i) {
        EffectsAre(run, acts, t, b, m, i);
      }
    }
    QuietSteps(p, geo, run, acts, t, b, m, -1);
  }

  // ----- The operations -----

  /** The operation ends in state `m`, started in state `b`; nothing else of thread `t` lies between. */
  ghost predicate Operation<K>(run: seq<State<K>>, t: nat, b: nat, m: nat) {
    && 0 < b < m && Busy(run, t, b, m)
    && t < |run[b - 1].threads| && run[b - 1].threads[t].pc.Done?
    && run[m].threads[t].pc.Done?
  }

  /** Exactly one step of the operation changes the set of keys, as the operation is to change it. */
  ghost predicate EffectOnce<K(!new)>(p: KeyPolicy<K>, run: seq<State<K>>, acts: seq<nat>,
                                      t: nat, b: nat, m: nat, op: Op, k: K)
    requires m < |run| == |acts| + 1
  {
    exists j: nat :: b <= j < m && EffectAt(run, acts, t, j) && QuietBut(p, run, acts, t, b, m, j)
                     && HasEffect(p, run[j], run[j + 1], op, k)
  }

  /** What the result `r` of an operation on the key `k` from `b` to `m` says. */
  ghost predicate Answers<K(!new)>(p: KeyPolicy<K>, run: seq<State<K>>, acts: seq<nat>,
                                   t: nat, b: nat, m: nat, op: Op, k: K, r: int)
    requires m < |run| == |acts| + 1
  {
    match op
    case Insert =>
      // inserted, found an equal key, or found the table full
      || (r == 1 && EffectOnce(p, run, acts, t, b, m, op, k))
      || (r == 0 && QuietBut(p, run, acts, t, b, m, -1) && SomeHit(p, run, acts, t, k, b, m))
      || (r == -1 && QuietBut(p, run, acts, t, b, m, -1)
          && SomeRefused(run, t, b, m) && SomeAbsent(p, run, k, b, m))
    case Visit =>
      && QuietBut(p, run, acts, t, b, m, -1)
      && (|| (r == 1 && SomeHit(p, run, acts, t, k, b, m))
          || (r == 0 && SomeAbsent(p, run, k, b, m)))
    case Erase(accepts) =>
      // erased, or the key was absent, or the condition declined it
      || (r == 1 && accepts && EffectOnce(p, run, acts, t, b, m, op, k))
      || (r == 0 && QuietBut(p, run, acts, t, b, m, -1)
          && (SomeAbsent(p, run, k, b, m) || (!accepts && SomeHit(p, run, acts, t, k, b, m))))
    case Sweep => true
  }

  /** Every finished operation on a key, whatever other threads did meanwhile. */
  lemma OperationIsAtomic<K(!new)>(p: KeyPolicy<K>, geo: Geometry, run: seq<State<K>>, acts: seq<nat>,
                                   t: nat, b: nat, m: nat)
    requires Lawful(p) && IsRun(p, geo, run, acts) && Operation(run, t, b, m)
    ensures Answers(p, run, acts, t, b, m, run[b].threads[t].op, run[b].threads[t].key, run[m].threads[t].pc.result)
  {
    RunIsStretch(p, geo, run, acts, b, m);
    StandsThroughout(p, geo, run, acts, t, b, m);
    BackedThroughout(p, geo, run, acts, t, b, m, m);
    if EffectCount(run, acts, t, b, m) == 1 {
      var j := SomeEffect(p, geo, run, acts, t, b, m);
    } else {
      NoEffect(p, geo, run, acts, t, b, m);
    }
  }
}
