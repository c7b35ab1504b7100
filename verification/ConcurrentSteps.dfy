/** What single steps do, seen from their own thread and from the shared state. */
module ConcurrentSteps {
  import opened SizePolicy
  import opened Keys
  import opened Probing
  import opened ConcurrentTable

  // ----- The way of a thread -----

  /** The program counters that can follow one another in an operation `op`. */
  predicate Flows(op: Op, pc: PC, pc': PC) {
    match pc
    case Done(_) => pc' == Begin
    case Begin => pc' == if op.Sweep? then SweepLock(0) else Probe(0)
    case Probe(i) => pc' == TestOverflow(i) || (pc'.Await? && pc'.step == i)
    case Await(i, m) => pc' == Compare(i, m)
    case Compare(i, m) =>
      || (op.Erase? && op.accepts && pc'.EraseLoad? && pc'.rest.Nothing?)
      || (!(op.Erase? && op.accepts) && pc'.Unlock? && pc'.result == HitResult(op))
      || pc' == TestOverflow(i)
      || (pc'.Compare? && pc'.step == i && pc'.mask < m)
    case TestOverflow(i) => pc' == Miss(op) || pc' == Probe(i + 1)
    case ReserveSize => pc'.TestSize?
    case TestSize(_) => pc' == InsLock(0) || pc' == Reject
    case Reject => pc' == Done(-1)
    case InsLock(i) => pc' == InsScan(i)
    case InsScan(i) => pc' == InsPass(i) || (pc'.InsCount? && pc'.step == i)
    case InsPass(i) => pc' == InsLock(i + 1)
    case InsCount(i, x) => pc' == InsUndo(i, x) || pc' == InsConstruct(i, x)
    case InsConstruct(_, _) => pc'.Unlock? && pc'.result == 1
    case InsUndo(i, _) => pc' == InsRelease(i)
    case InsRelease(_) => pc' == InsGiveBack
    case InsGiveBack => pc' == Begin
    case EraseLoad(g, x, rest) => pc'.EraseReset? && pc' == EraseReset(g, x, pc'.lowered, rest)
    case EraseReset(g, _, _, rest) => pc' == EraseSize(g, rest)
    case EraseSize(g, rest) => pc' == if rest.More? then SweepNext(g, rest.mask) else Unlock(g, true, 1)
    case Unlock(_, _, r) => pc' == Done(r)
    case SweepLock(g) => pc' == SweepScan(g)
    case SweepScan(g) => pc'.SweepNext? && pc'.group == g
    case SweepNext(g, m) =>
      || pc' == Done(0) || pc' == SweepLock(g + 1)
      || (pc'.SweepNext? && pc'.group == g && pc'.mask < m)
      || (pc'.EraseLoad? && pc'.group == g && pc'.rest.More? && pc'.rest.mask < m && pc'.slot !in pc'.rest.mask)
  }

  /** A thread keeps what it works on, reads the counter at Begin only, and stays within the lock it holds. */
  ghost predicate ThreadFlows<K>(p: KeyPolicy<K>, geo: Geometry, th: Thread<K>, th': Thread<K>) {
    && Flows(th.op, th.pc, th'.pc)
    && (if th.pc.Done? then th'.op.Erase? ==> th'.excl
        else th' == th.(counter := if th.pc.Begin? then th'.counter else th.counter, pc := th'.pc))
    && (th'.pc.Unlock? || th'.pc.EraseLoad? ==> HeldGroup(p, geo, th) == th'.pc.group)
    && (th'.pc.Unlock? && th'.pc.excl ==> Exclusively(th))
    && (th'.pc.EraseLoad? ==> th.op.Erase? || Exclusively(th))
  }

  /** A step moves its own thread only. */
  ghost predicate MovesOne<K>(p: KeyPolicy<K>, geo: Geometry, s: State<K>, u: nat, s': State<K>) {
    && u < |s.threads| == |s'.threads| && s'.threads == s.threads[u := s'.threads[u]]
    && ThreadFlows(p, geo, s.threads[u], s'.threads[u])
  }

  lemma CompareMovesOne<K>(p: KeyPolicy<K>, geo: Geometry, s: State<K>, u: nat, s': State<K>)
    requires Shaped(p, geo, s) && u < |s.threads| && s.threads[u].pc.Compare? && CompareStep(p, geo, s, u, s')
    ensures MovesOne(p, geo, s, u, s')
  {
  }

  lemma LookupMovesOne<K>(p: KeyPolicy<K>, geo: Geometry, s: State<K>, u: nat, s': State<K>)
    requires Shaped(p, geo, s) && u < |s.threads| && LookupStep(p, geo, s, u, s')
    ensures MovesOne(p, geo, s, u, s')
  {
    if s.threads[u].pc.Compare? {
      CompareMovesOne(p, geo, s, u, s');
    }
  }

  lemma ReserveMovesOne<K>(p: KeyPolicy<K>, geo: Geometry, s: State<K>, u: nat, s': State<K>)
    requires Shaped(p, geo, s) && u < |s.threads| && ReserveStep(p, geo, s, u, s')
    ensures MovesOne(p, geo, s, u, s')
  {
  }

  lemma InsertMovesOne<K>(p: KeyPolicy<K>, geo: Geometry, s: State<K>, u: nat, s': State<K>)
    requires Shaped(p, geo, s) && u < |s.threads| && InsertStep(p, geo, s, u, s')
    ensures MovesOne(p, geo, s, u, s')
  {
  }

  lemma EraseMovesOne<K>(p: KeyPolicy<K>, geo: Geometry, s: State<K>, u: nat, s': State<K>)
    requires Shaped(p, geo, s) && u < |s.threads| && EraseStep(p, geo, s, u, s')
    ensures MovesOne(p, geo, s, u, s')
  {
  }

  lemma SweepMovesOne<K>(p: KeyPolicy<K>, geo: Geometry, s: State<K>, u: nat, s': State<K>)
    requires Shaped(p, geo, s) && u < |s.threads| && SweepStep(p, geo, s, u, s')
    ensures MovesOne(p, geo, s, u, s')
  {
  }

  lemma StepMovesOne<K>(p: KeyPolicy<K>, geo: Geometry, s: State<K>, u: nat, s': State<K>)
    requires Shaped(p, geo, s) && u < |s.threads| && Step(p, geo, s, u, s')
    ensures MovesOne(p, geo, s, u, s')
  {
    if LookupStep(p, geo, s, u, s') {
      LookupMovesOne(p, geo, s, u, s');
    } else if ReserveStep(p, geo, s, u, s') {
      ReserveMovesOne(p, geo, s, u, s');
    } else if InsertStep(p, geo, s, u, s') {
      InsertMovesOne(p, geo, s, u, s');
    } else if EraseStep(p, geo, s, u, s') {
      EraseMovesOne(p, geo, s, u, s');
    } else if SweepStep(p, geo, s, u, s') {
      SweepMovesOne(p, geo, s, u, s');
    }
  }

  /** A thread that takes a group lock takes one that can be granted. */
  ghost predicate Asks<K>(p: KeyPolicy<K>, geo: Geometry, s: State<K>, t: nat)
    requires t < |s.threads|
  {
    var th := s.threads[t];
    match th.pc
    case Await(i, _) => Grantable(p, geo, s, t, GroupAt(p, geo, th.key, i), th.excl)
    case InsLock(i) => Grantable(p, geo, s, t, GroupAt(p, geo, th.key, i), true)
    case SweepLock(g) => Grantable(p, geo, s, t, g, th.excl)
    case _ => true
  }

  lemma StepAsks<K>(p: KeyPolicy<K>, geo: Geometry, s: State<K>, t: nat, s': State<K>)
    requires Shaped(p, geo, s) && t < |s.threads| && Step(p, geo, s, t, s')
    ensures Asks(p, geo, s, t)
  {
  }

  // ----- What a step changes -----

  /** Program counters without any claim on slots, overflow bits or size counters. */
  predicate Unburdened(pc: PC) {
    || pc.Done? || pc.Begin? || pc.Probe? || pc.Await? || pc.Compare? || pc.TestOverflow? || pc.ReserveSize?
    || pc.Unlock? || pc.SweepLock? || pc.SweepScan? || pc.SweepNext?
  }

  /** The slots a sweep still has to come to in its group. */
  function MaskLeft(pc: PC): set<nat> {
    match pc
    case SweepNext(_, m) => m
    case EraseLoad(_, _, More(m)) => m
    case EraseReset(_, _, _, More(m)) => m
    case EraseSize(_, More(m)) => m
    case _ => {}
  }

  /** Thread `t` goes on and nothing else changes. */
  ghost predicate Passes<K>(s: State<K>, t: nat, s': State<K>) {
    t < |s.threads| == |s'.threads| && s' == s.(threads := s.threads[t := s'.threads[t]])
  }

  /** Thread `t`, alone in the group, destroys the element of a slot and starts to recover the slot. */
  ghost predicate Destroys<K>(p: KeyPolicy<K>, geo: Geometry, s: State<K>, t: nat, s': State<K>) {
    && t < |s.threads| == |s'.threads| && s'.threads[t].pc.EraseLoad?
    && var th, x, g := s.threads[t], s'.threads[t].pc.slot, s'.threads[t].pc.group;
       && Unburdened(th.pc) && Exclusively(th) && HeldGroup(p, geo, th) == GroupOf(x) == g
       && MaskLeft(s'.threads[t].pc) <= MaskLeft(th.pc) && x !in MaskLeft(s'.threads[t].pc)
       && x < |s.slots| && s.slots[x].Live?
       && s' == At(Put(s, x, Dead(p.hash(s.slots[x].key), t)), t, s'.threads[t].pc)
  }

  lemma CompareChanges<K>(p: KeyPolicy<K>, geo: Geometry, s: State<K>, t: nat, s': State<K>)
    requires Shaped(p, geo, s) && t < |s.threads| && s.threads[t].pc.Compare? && CompareStep(p, geo, s, t, s')
    requires s.threads[t].op.Erase? ==> s.threads[t].excl
    ensures t < |s'.threads|
    ensures if s'.threads[t].pc.EraseLoad? then Destroys(p, geo, s, t, s')
            else Passes(s, t, s') && Unburdened(s'.threads[t].pc)
  {
    assert ShapedThread(p, geo, s.threads[t]);
  }

  lemma LookupChanges<K>(p: KeyPolicy<K>, geo: Geometry, s: State<K>, t: nat, s': State<K>)
    requires Shaped(p, geo, s) && t < |s.threads| && LookupStep(p, geo, s, t, s')
    requires s.threads[t].op.Erase? ==> s.threads[t].excl
    ensures t < |s'.threads| && Unburdened(s.threads[t].pc)
    ensures if s'.threads[t].pc.EraseLoad? then Destroys(p, geo, s, t, s')
            else Passes(s, t, s') && Unburdened(s'.threads[t].pc)
  {
    if s.threads[t].pc.Compare? {
      CompareChanges(p, geo, s, t, s');
    }
  }

  lemma CallChanges<K>(p: KeyPolicy<K>, geo: Geometry, s: State<K>, t: nat, x: nat, s': State<K>)
    requires t < |s.threads| && s.threads[t].pc.SweepNext? && ShapedThread(p, geo, s.threads[t])
    requires x in s.threads[t].pc.mask && x < |s.slots| && s.slots[x].Live? && CallOn(p, s, t, x, s')
    ensures t < |s'.threads|
    ensures if s'.threads[t].pc.EraseLoad? then Destroys(p, geo, s, t, s')
            else Passes(s, t, s') && Unburdened(s'.threads[t].pc)
  {
  }

  lemma SweepChanges<K>(p: KeyPolicy<K>, geo: Geometry, s: State<K>, t: nat, s': State<K>)
    requires Shaped(p, geo, s) && t < |s.threads| && SweepStep(p, geo, s, t, s')
    ensures t < |s'.threads| && Unburdened(s.threads[t].pc)
    ensures if s'.threads[t].pc.EraseLoad? then Destroys(p, geo, s, t, s')
            else Passes(s, t, s') && Unburdened(s'.threads[t].pc)
  {
    if s.threads[t].pc.SweepNext? && s.threads[t].pc.mask != {} {
      assert ShapedThread(p, geo, s.threads[t]);
      var x: nat :| Lowest(x, s.threads[t].pc.mask) && x < |s.slots| && s.slots[x].Live? && CallOn(p, s, t, x, s');
      CallChanges(p, geo, s, t, x, s');
    }
  }

  ghost predicate SameTable<K>(s: State<K>, s': State<K>) {
    s'.slots == s.slots && s'.over == s.over && s'.cnt == s.cnt
  }

  /** How the size counter and the maximum load change along with a program counter. */
  predicate Reckons(pc: PC, pc': PC, size: int, size': int, ml: int, ml': int) {
    match pc
    case ReserveSize => size' == size + 1 && ml' == ml && pc' == TestSize(size + 1)
    case TestSize(c) => size' == size && ml' == ml && pc' == if c <= ml then InsLock(0) else Reject
    case Reject => size' == size - 1 && ml' == ml
    case InsGiveBack => size' == size - 1 && ml' == ml
    case EraseLoad(_, _, _) => size' == size && pc'.EraseReset? && ml' == if pc'.lowered then ml - 1 else ml
    case EraseSize(_, _) => size' == size - 1 && ml' == ml
    case _ => size' == size && ml' == ml && (pc.InsLock? || pc.InsPass? || pc.InsRelease?)
  }

  /** Thread `t` goes on and at most the two size counters change. */
  ghost predicate Accounts<K>(p: KeyPolicy<K>, geo: Geometry, s: State<K>, t: nat, s': State<K>) {
    && MovesOne(p, geo, s, t, s') && SameTable(s, s')
    && Reckons(s.threads[t].pc, s'.threads[t].pc, s.size, s'.size, s.ml, s'.ml)
  }

  lemma ReserveAccounts<K>(p: KeyPolicy<K>, geo: Geometry, s: State<K>, t: nat, s': State<K>)
    requires Shaped(p, geo, s) && t < |s.threads| && ReserveStep(p, geo, s, t, s')
    ensures Accounts(p, geo, s, t, s')
  {
    ReserveMovesOne(p, geo, s, t, s');
  }

  lemma EraseAccounts<K>(p: KeyPolicy<K>, geo: Geometry, s: State<K>, t: nat, s': State<K>)
    requires Shaped(p, geo, s) && t < |s.threads| && EraseStep(p, geo, s, t, s') && !s.threads[t].pc.EraseReset?
    ensures Accounts(p, geo, s, t, s')
  {
    EraseMovesOne(p, geo, s, t, s');
  }

  /** Thread `t` lets go of the slot in its hand: constructs the element promised, or frees the slot. */
  ghost predicate Settles<K>(p: KeyPolicy<K>, geo: Geometry, s: State<K>, t: nat, s': State<K>) {
    && MovesOne(p, geo, s, t, s') && |s'.slots| == |s.slots|
    && var pc := s.threads[t].pc;
       && (pc.InsConstruct? || pc.InsUndo? || pc.EraseReset?)
       && pc.slot < |s.slots| && HeldGroup(p, geo, s.threads[t]) == GroupOf(pc.slot)
       && SameTable(Put(s, pc.slot, s'.slots[pc.slot]), s') && s'.size == s.size && s'.ml == s.ml
       && var v, w := s.slots[pc.slot], s'.slots[pc.slot];
          if pc.InsConstruct? then v.Promised? && w == Live(v.key, v.ticket) else w == Free
  }

  lemma InsertSettles<K>(p: KeyPolicy<K>, geo: Geometry, s: State<K>, t: nat, s': State<K>)
    requires Shaped(p, geo, s) && t < |s.threads| && InsertStep(p, geo, s, t, s')
    requires !s.threads[t].pc.InsScan? && !s.threads[t].pc.InsCount?
    ensures Settles(p, geo, s, t, s')
  {
    assert ShapedThread(p, geo, s.threads[t]);
    InsertMovesOne(p, geo, s, t, s');
  }

  lemma EraseSettles<K>(p: KeyPolicy<K>, geo: Geometry, s: State<K>, t: nat, s': State<K>)
    requires Shaped(p, geo, s) && t < |s.threads| && EraseStep(p, geo, s, t, s') && s.threads[t].pc.EraseReset?
    ensures Settles(p, geo, s, t, s')
  {
    assert ShapedThread(p, geo, s.threads[t]);
    EraseMovesOne(p, geo, s, t, s');
  }

  /** What a scan does to the slots and the size counters. */
  ghost predicate Scans<K>(s: State<K>, t: nat, s': State<K>) {
    && t < |s.threads| == |s'.threads| && s'.threads == s.threads[t := s'.threads[t]]
    && |s'.slots| == |s.slots| && s'.size == s.size && s'.ml == s.ml
    && var pc, pc' := s.threads[t].pc, s'.threads[t].pc;
       && pc.InsScan?
       && if pc'.InsPass? then s'.slots == s.slots
          else pc'.InsCount? && pc'.slot < |s.slots| && s.slots[pc'.slot].Free? && s'.slots[pc'.slot].Reserved?
               && s'.slots == s.slots[pc'.slot := s'.slots[pc'.slot]]
  }

  lemma ScanChanges<K>(p: KeyPolicy<K>, geo: Geometry, s: State<K>, t: nat, s': State<K>)
    requires Shaped(p, geo, s) && t < |s.threads| && s.threads[t].pc.InsScan? && ScanStep(p, geo, s, t, s')
    ensures Scans(s, t, s')
  {
  }

  /** The counter check, with the ranges it relies on. */
  ghost predicate Counts<K>(p: KeyPolicy<K>, geo: Geometry, s: State<K>, t: nat, s': State<K>) {
    && t < |s.threads| == |s'.threads| && s.threads[t].pc.InsCount?
    && var th, InsCount(i, x), home := s.threads[t], s.threads[t].pc, Home(p, geo, s.threads[t].key);
       && x < |s.slots| && GroupOf(x) == GroupAt(p, geo, th.key, i) && home < |s.cnt|
       && s'.over == s.over && s'.cnt == s.cnt[home := s.cnt[home] + 1] && s'.ml == s.ml && s'.size == s.size
       && s'.threads == s.threads[t := s'.threads[t]]
       && if s.cnt[home] != th.counter then s'.slots == s.slots && s'.threads[t] == th.(pc := InsUndo(i, x))
          else s'.slots == s.slots[x := Promised(th.key, s.cnt[home], t)] && s'.threads[t] == th.(pc := InsConstruct(i, x))
  }

  lemma CountChanges<K>(p: KeyPolicy<K>, geo: Geometry, s: State<K>, t: nat, s': State<K>)
    requires Shaped(p, geo, s) && t < |s.threads| && s.threads[t].pc.InsCount? && CountStep(p, geo, s, t, s')
    ensures Counts(p, geo, s, t, s')
  {
    assert ShapedThread(p, geo, s.threads[t]);
  }
}
