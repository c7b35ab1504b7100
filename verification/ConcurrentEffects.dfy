/** What single steps do to the set of keys in the table, and why a lookup's miss is a true answer. */
module ConcurrentEffects {
  import opened SizePolicy
  import opened Keys
  import opened Probing
  import opened ConcurrentTable
  import opened ConcurrentSteps
  import opened ConcurrentSafety
  import opened ConcurrentUniqueness
  import opened ConcurrentRuns
  import opened Runs

  /** An element with an equal key is stored, or promised by an insertion that passed its counter check. */
  ghost predicate Present<K>(p: KeyPolicy<K>, s: State<K>, k: K) {
    exists x :: 0 <= x < |s.slots| && s.slots[x].HasKey() && p.eq(k, s.slots[x].key)
  }

  /** The step adds the key `k`, absent until then, and nothing else. */
  ghost predicate Adds<K(!new)>(p: KeyPolicy<K>, s: State<K>, s': State<K>, k: K) {
    !Present(p, s, k) && forall q :: Present(p, s', q) <==> Present(p, s, q) || p.eq(q, k)
  }

  /** The step removes the key `k`, present until then, and nothing else. */
  ghost predicate Removes<K(!new)>(p: KeyPolicy<K>, s: State<K>, s': State<K>, k: K) {
    Present(p, s, k) && forall q :: Present(p, s', q) <==> Present(p, s, q) && !p.eq(q, k)
  }

  ghost predicate Keeps<K(!new)>(p: KeyPolicy<K>, s: State<K>, s': State<K>) {
    forall q :: Present(p, s', q) <==> Present(p, s, q)
  }

  // ----- Steps that change the set of keys -----

  /** Filling a slot without a key adds exactly that key; nothing else changes. */
  lemma PutPresence<K(!new)>(p: KeyPolicy<K>, s: State<K>, s': State<K>, x: nat)
    requires x < |s.slots| == |s'.slots| && !s.slots[x].HasKey() && s'.slots == s.slots[x := s'.slots[x]]
    requires s'.slots[x].HasKey()
    ensures forall k :: Present(p, s', k) <==> Present(p, s, k) || p.eq(k, s'.slots[x].key)
  {
    forall k ensures Present(p, s', k) <==> Present(p, s, k) || p.eq(k, s'.slots[x].key) {
      if y :| 0 <= y < |s.slots| && s.slots[y].HasKey() && p.eq(k, s.slots[y].key) {
        assert s'.slots[y] == s.slots[y];
      }
    }
  }

  /** Emptying a slot removes exactly its key, keys being distinct. */
  lemma DropRemoves<K(!new)>(p: KeyPolicy<K>, s: State<K>, s': State<K>, x: nat)
    requires Lawful(p) && Distinct(p, s.slots)
    requires x < |s.slots| == |s'.slots| && s.slots[x].HasKey() && s'.slots == s.slots[x := s'.slots[x]]
    requires !s'.slots[x].HasKey()
    ensures Removes(p, s, s', s.slots[x].key)
  {
    var v := s.slots[x].key;
    forall k ensures Present(p, s', k) <==> Present(p, s, k) && !p.eq(k, v) {
      OthersRemain(p, s, s', x, k);
    }
  }

  lemma OthersRemain<K(!new)>(p: KeyPolicy<K>, s: State<K>, s': State<K>, x: nat, k: K)
    requires Lawful(p) && Distinct(p, s.slots)
    requires x < |s.slots| == |s'.slots| && s.slots[x].HasKey() && s'.slots == s.slots[x := s'.slots[x]]
    requires !s'.slots[x].HasKey()
    ensures Present(p, s', k) <==> Present(p, s, k) && !p.eq(k, s.slots[x].key)
  {
    if y :| 0 <= y < |s'.slots| && s'.slots[y].HasKey() && p.eq(k, s'.slots[y].key) {
      assert y != x && s.slots[y] == s'.slots[y];
      assert !p.eq(s.slots[x].key, s.slots[y].key);
    }
    if y :| 0 <= y < |s.slots| && y != x && s.slots[y].HasKey() && p.eq(k, s.slots[y].key) {
      assert s'.slots[y] == s.slots[y];
    }
  }

  lemma EqualKeyRemoved<K(!new)>(p: KeyPolicy<K>, s: State<K>, s': State<K>, a: K, b: K)
    requires Lawful(p) && p.eq(a, b) && Removes(p, s, s', b)
    ensures Removes(p, s, s', a)
  {
    var x :| 0 <= x < |s.slots| && s.slots[x].HasKey() && p.eq(b, s.slots[x].key);
    assert p.eq(a, s.slots[x].key);
    forall q ensures Present(p, s', q) <==> Present(p, s, q) && !p.eq(q, a) {
      EqualEquals(p, q, a, b);
    }
  }

  lemma EqualEquals<K(!new)>(p: KeyPolicy<K>, q: K, a: K, b: K)
    requires Lawful(p) && p.eq(a, b)
    ensures p.eq(q, a) <==> p.eq(q, b)
  {
  }

  /** The insertion whose counter check passes adds its key, absent until then. */
  lemma InsertTakesEffect<K(!new)>(p: KeyPolicy<K>, geo: Geometry, s: State<K>, t: nat, s': State<K>)
    requires Lawful(p) && Inv(p, geo, s) && t < |s.threads| && InsertStep(p, geo, s, t, s')
    requires s'.threads[t].pc.InsConstruct?
    ensures Adds(p, s, s', s.threads[t].key)
  {
    InsertMovesOne(p, geo, s, t, s');
    CountChanges(p, geo, s, t, s');
    var th, x := s.threads[t], s.threads[t].pc.slot;
    forall y | 0 <= y < |s.slots| && s.slots[y].HasKey() ensures !p.eq(th.key, s.slots[y].key) {
      if p.eq(th.key, s.slots[y].key) {
        CheckedInsertIsFresh(p, geo, s, t, y);
      }
    }
    PutPresence(p, s, s', x);
  }

  /** The erasure that destroys its element removes its key, present until then. */
  lemma EraseTakesEffect<K(!new)>(p: KeyPolicy<K>, geo: Geometry, s: State<K>, t: nat, s': State<K>)
    requires Lawful(p) && Inv(p, geo, s) && t < |s.threads| && LookupStep(p, geo, s, t, s')
    requires s'.threads[t].pc.EraseLoad?
    ensures Removes(p, s, s', s.threads[t].key)
  {
    LookupChanges(p, geo, s, t, s');
    var x := s'.threads[t].pc.slot;
    assert p.eq(s.threads[t].key, s.slots[x].key);
    DropRemoves(p, s, s', x);
    EqualKeyRemoved(p, s, s', s.threads[t].key, s.slots[x].key);
  }

  /** A sweep that has an element erased removes exactly its key. */
  lemma SweepTakesEffect<K(!new)>(p: KeyPolicy<K>, geo: Geometry, s: State<K>, t: nat, s': State<K>)
    requires Lawful(p) && Inv(p, geo, s) && t < |s.threads| && SweepStep(p, geo, s, t, s')
    requires s'.threads[t].pc.EraseLoad?
    ensures var x := s'.threads[t].pc.slot;
            x < |s.slots| && s.slots[x].Live? && Removes(p, s, s', s.slots[x].key)
  {
    var x := s'.threads[t].pc.slot;
    assert s.slots[x].Live? && s'.slots == s.slots[x := s'.slots[x]];
    DropRemoves(p, s, s', x);
  }

  // ----- All other steps -----

  predicate SameElement<K(==)>(v: Slot<K>, w: Slot<K>) {
    v.HasKey() == w.HasKey() && (v.HasKey() ==> v.key == w.key && v.ticket == w.ticket)
  }

  ghost predicate SameElements<K>(s: State<K>, s': State<K>) {
    |s'.slots| == |s.slots| && forall x :: 0 <= x < |s.slots| ==> SameElement(s.slots[x], s'.slots[x])
  }

  lemma PutSameElement<K>(s: State<K>, x: nat, s': State<K>)
    requires x < |s.slots| == |s'.slots| && s'.slots == s.slots[x := s'.slots[x]]
    requires SameElement(s.slots[x], s'.slots[x])
    ensures SameElements(s, s')
  {
  }

  lemma SettleKeepsElements<K>(p: KeyPolicy<K>, geo: Geometry, s: State<K>, t: nat, s': State<K>)
    requires Settles(p, geo, s, t, s') && Hands(p, s.slots, s.threads)
    ensures SameElements(s, s')
  {
    PutSameElement(s, s.threads[t].pc.slot, s');
  }

  lemma ScanKeepsElements<K>(s: State<K>, t: nat, s': State<K>)
    requires Scans(s, t, s')
    ensures SameElements(s, s')
  {
    if s'.threads[t].pc.InsCount? {
      PutSameElement(s, s'.threads[t].pc.slot, s');
    }
  }

  lemma InsertKeepsElements<K>(p: KeyPolicy<K>, geo: Geometry, s: State<K>, t: nat, s': State<K>)
    requires Shaped(p, geo, s) && Hands(p, s.slots, s.threads) && t < |s.threads|
    requires InsertStep(p, geo, s, t, s') && !s'.threads[t].pc.InsConstruct?
    ensures SameElements(s, s')
  {
    if s.threads[t].pc.InsScan? {
      ScanChanges(p, geo, s, t, s');
      ScanKeepsElements(s, t, s');
    } else if s.threads[t].pc.InsCount? {
      CountChanges(p, geo, s, t, s');
    } else {
      InsertSettles(p, geo, s, t, s');
      SettleKeepsElements(p, geo, s, t, s');
    }
  }

  lemma EraseKeepsElements<K>(p: KeyPolicy<K>, geo: Geometry, s: State<K>, t: nat, s': State<K>)
    requires Shaped(p, geo, s) && Hands(p, s.slots, s.threads) && t < |s.threads|
    requires EraseStep(p, geo, s, t, s')
    ensures SameElements(s, s')
  {
    if s.threads[t].pc.EraseReset? {
      EraseSettles(p, geo, s, t, s');
      SettleKeepsElements(p, geo, s, t, s');
    } else {
      EraseAccounts(p, geo, s, t, s');
    }
  }

  lemma PassKeepsElements<K>(p: KeyPolicy<K>, geo: Geometry, s: State<K>, t: nat, s': State<K>)
    requires Shaped(p, geo, s) && t < |s.threads| == |s'.threads| && !TakesEffect(s'.threads[t].pc)
    requires GroupsExclusive(p, geo, s.threads)
    requires LookupStep(p, geo, s, t, s') || SweepStep(p, geo, s, t, s')
    ensures SameElements(s, s')
  {
    if LookupStep(p, geo, s, t, s') {
      LookupChanges(p, geo, s, t, s');
    } else {
      SweepChanges(p, geo, s, t, s');
    }
  }

  lemma SameElementsSamePresence<K(!new)>(p: KeyPolicy<K>, s: State<K>, s': State<K>)
    requires SameElements(s, s')
    ensures Keeps(p, s, s')
  {
    assert forall x :: 0 <= x < |s.slots| ==> SameElement(s.slots[x], s'.slots[x]);
  }

  /** Whether a step is the one at which an operation changes the set of keys. */
  predicate TakesEffect(pc': PC) { pc'.InsConstruct? || pc'.EraseLoad? }

  /** Every other step leaves the stored elements, and so the set of present keys, as they were. */
  lemma OtherStepsKeepElements<K(!new)>(p: KeyPolicy<K>, geo: Geometry, s: State<K>, t: nat, s': State<K>)
    requires Safe(p, geo, s) && t < |s.threads| == |s'.threads|
    requires !TakesEffect(s'.threads[t].pc)
    requires Step(p, geo, s, t, s')
    ensures SameElements(s, s') && Keeps(p, s, s')
  {
    if InsertStep(p, geo, s, t, s') {
      InsertKeepsElements(p, geo, s, t, s');
    } else if EraseStep(p, geo, s, t, s') {
      EraseKeepsElements(p, geo, s, t, s');
    } else if ReserveStep(p, geo, s, t, s') {
      ReserveAccounts(p, geo, s, t, s');
    } else if !StartStep(p, geo, s, t, s') {
      PassKeepsElements(p, geo, s, t, s');
    }
    SameElementsSamePresence(p, s, s');
  }

  /** A lookup that reports an element does so while its key is present. */
  lemma HitIsPresent<K(!new)>(p: KeyPolicy<K>, geo: Geometry, s: State<K>, t: nat, s': State<K>)
    requires Shaped(p, geo, s) && t < |s.threads| && LookupStep(p, geo, s, t, s')
    requires s.threads[t].pc.Compare? && s'.threads[t].pc.Unlock?
    ensures Present(p, s, s.threads[t].key)
    ensures s'.threads[t].pc.result == HitResult(s.threads[t].op)
  {
    assert ShapedThread(p, geo, s.threads[t]);
  }

  // ----- A miss is a true answer -----

  /** Slot `x` holds an element equal to `k` with a ticket issued before counter value `c`. */
  ghost predicate OldAt<K>(p: KeyPolicy<K>, s: State<K>, k: K, c: int, x: nat) {
    x < |s.slots| && s.slots[x].HasKey() && p.eq(k, s.slots[x].key) && s.slots[x].ticket < c
  }

  lemma DroppedIsAbsent<K(!new)>(p: KeyPolicy<K>, s: State<K>, s': State<K>, k: K, c: int, x: nat)
    requires Lawful(p) && Distinct(p, s.slots) && OldAt(p, s, k, c, x)
    requires |s.slots| == |s'.slots| && s'.slots == s.slots[x := s'.slots[x]] && !s'.slots[x].HasKey()
    ensures !Present(p, s', k)
  {
    OthersRemain(p, s, s', x, k);
  }

  /** While its key stays present, an old element stays where it is: any erasure of it is the key's. */
  lemma OldElementStays<K(!new)>(p: KeyPolicy<K>, geo: Geometry, s: State<K>, u: nat, s': State<K>,
                                 k: K, c: int, x: nat)
    requires Lawful(p) && Inv(p, geo, s) && u < |s.threads| == |s'.threads| && Step(p, geo, s, u, s')
    requires OldAt(p, s, k, c, x) && Present(p, s', k)
    ensures OldAt(p, s', k, c, x)
  {
    var pc' := s'.threads[u].pc;
    if !TakesEffect(pc') {
      OtherStepsKeepElements(p, geo, s, u, s');
      assert SameElement(s.slots[x], s'.slots[x]);
    } else if pc'.InsConstruct? {
      InsertLeavesOld(p, geo, s, u, s', x);
    } else {
      ErasureDestroys(p, geo, s, u, s');
      if pc'.slot == x {
        DroppedIsAbsent(p, s, s', k, c, x);
      }
    }
  }

  lemma InsertLeavesOld<K>(p: KeyPolicy<K>, geo: Geometry, s: State<K>, u: nat, s': State<K>, x: nat)
    requires Shaped(p, geo, s) && Hands(p, s.slots, s.threads) && u < |s.threads| == |s'.threads|
    requires Step(p, geo, s, u, s') && s'.threads[u].pc.InsConstruct?
    requires x < |s.slots| && s.slots[x].HasKey()
    ensures |s'.slots| == |s.slots| && s'.slots[x] == s.slots[x]
  {
    StepMovesOne(p, geo, s, u, s');
    CountChanges(p, geo, s, u, s');
  }

  /** The step that starts the recovery of a slot is an erasure's or a sweep's, and empties that slot only. */
  lemma ErasureDestroys<K>(p: KeyPolicy<K>, geo: Geometry, s: State<K>, u: nat, s': State<K>)
    requires Shaped(p, geo, s) && GroupsExclusive(p, geo, s.threads) && u < |s.threads| == |s'.threads|
    requires Step(p, geo, s, u, s') && s'.threads[u].pc.EraseLoad?
    ensures Destroys(p, geo, s, u, s')
  {
    if LookupStep(p, geo, s, u, s') {
      LookupChanges(p, geo, s, u, s');
    } else if SweepStep(p, geo, s, u, s') {
      SweepChanges(p, geo, s, u, s');
    }
  }

  /** An equal element present when the counter is read is older than the value read. */
  lemma OldAtStart<K(!new)>(p: KeyPolicy<K>, geo: Geometry, s: State<K>, k: K) returns (x: nat)
    requires Lawful(p) && Reachable(p, geo, s) && Present(p, s, k) && Home(p, geo, k) < |s.cnt|
    ensures OldAt(p, s, k, s.cnt[Home(p, geo, k)], x)
  {
    x :| 0 <= x < |s.slots| && s.slots[x].HasKey() && p.eq(k, s.slots[x].key);
    assert Sound(p, geo, s.over, s.cnt, x, s.slots[x]);
  }

  predicate InLookup(pc: PC) {
    pc.Probe? || pc.Await? || pc.Compare? || pc.TestOverflow?
  }

  /** A thread that stays in its lookup keeps key and counter; at the start it reads the counter. */
  ghost predicate LookupKept<K>(p: KeyPolicy<K>, geo: Geometry, s: State<K>, s': State<K>, t: nat)
    requires t < |s.threads| == |s'.threads|
  {
    && s'.threads[t].key == s.threads[t].key
    && if s.threads[t].pc.Begin? then
         Home(p, geo, s.threads[t].key) < |s.cnt| && s'.threads[t].counter == s.cnt[Home(p, geo, s.threads[t].key)]
       else s'.threads[t].counter == s.threads[t].counter
  }

  /** The counter is read in a lookup step. */
  lemma BeginReads<K>(p: KeyPolicy<K>, geo: Geometry, s: State<K>, t: nat, s': State<K>)
    requires Shaped(p, geo, s) && t < |s.threads| == |s'.threads| && Step(p, geo, s, t, s') && s.threads[t].pc.Begin?
    ensures Home(p, geo, s.threads[t].key) < |s.cnt| && s'.threads[t].counter == s.cnt[Home(p, geo, s.threads[t].key)]
  {
    assert ShapedThread(p, geo, s.threads[t]);
  }

  lemma LookupThreadKept<K>(p: KeyPolicy<K>, geo: Geometry, s: State<K>, u: nat, s': State<K>, t: nat)
    requires Shaped(p, geo, s) && u < |s.threads| == |s'.threads| && Step(p, geo, s, u, s')
    requires t < |s.threads| && InLookup(s'.threads[t].pc)
    requires s.threads[t].pc.Begin? || InLookup(s.threads[t].pc)
    ensures LookupKept(p, geo, s, s', t)
  {
    StepMovesOne(p, geo, s, u, s');
    if t == u && s.threads[t].pc.Begin? {
      BeginReads(p, geo, s, t, s');
    }
  }

  /** Thread `t` reads the counter in state `b` and is still in that lookup in every state up to `m`. */
  ghost predicate LookupSpan<K>(run: seq<State<K>>, b: nat, m: nat, t: nat) {
    && b < m < |run|
    && (forall i :: b <= i <= m ==> t < |run[i].threads|)
    && run[b].threads[t].pc.Begin?
    && (forall i :: b < i <= m ==> InLookup(run[i].threads[t].pc))
  }

  /** An element equal to the key `k` of thread `t`, in its lookup, is older than the counter value it read. */
  ghost predicate Outstanding<K>(p: KeyPolicy<K>, s: State<K>, t: nat, k: K) {
    t < |s.threads| && s.threads[t].key == k && exists x: nat :: OldAt(p, s, k, s.threads[t].counter, x)
  }

  ghost predicate Looking<K>(p: KeyPolicy<K>, geo: Geometry, s: State<K>, t: nat, k: K) {
    Inv(p, geo, s) && t < |s.threads| && InLookup(s.threads[t].pc) && Present(p, s, k)
  }

  lemma OutstandingFromStart<K(!new)>(p: KeyPolicy<K>, geo: Geometry, s: State<K>, u: nat, s': State<K>, t: nat)
    requires Lawful(p) && Inv(p, geo, s) && Next(p, geo, s, u, s')
    requires t < |s.threads| && s.threads[t].pc.Begin? && InLookup(s'.threads[t].pc)
    requires Present(p, s, s.threads[t].key) && Present(p, s', s.threads[t].key)
    ensures Outstanding(p, s', t, s.threads[t].key)
  {
    LookupThreadKept(p, geo, s, u, s', t);
    var x := OldAtStart(p, geo, s, s.threads[t].key);
    OldElementStays(p, geo, s, u, s', s.threads[t].key, s'.threads[t].counter, x);
  }

  lemma OutstandingCarried<K(!new)>(p: KeyPolicy<K>, geo: Geometry, s: State<K>, u: nat, s': State<K>, t: nat, k: K)
    requires Lawful(p) && Next(p, geo, s, u, s') && Looking(p, geo, s, t, k) && Looking(p, geo, s', t, k)
    requires Outstanding(p, s, t, k)
    ensures Outstanding(p, s', t, k)
  {
    LookupThreadKept(p, geo, s, u, s', t);
    var x: nat :| OldAt(p, s, k, s.threads[t].counter, x);
    OldElementStays(p, geo, s, u, s', k, s.threads[t].counter, x);
  }

  lemma OutstandingAlong<K(!new)>(p: KeyPolicy<K>, geo: Geometry, run: seq<State<K>>, acts: seq<nat>,
                                  b: nat, i: nat, t: nat, k: K)
    requires Lawful(p) && |run| == |acts| + 1 && b <= i < |run|
    requires forall j :: b <= j < i ==> Next(p, geo, run[j], acts[j], run[j + 1])
    requires forall j :: b <= j <= i ==> Looking(p, geo, run[j], t, k)
    requires Outstanding(p, run[b], t, k)
    ensures Outstanding(p, run[i], t, k)
  {
    forall s, u, s' | Next(p, geo, s, u, s') && Looking(p, geo, s, t, k) && Looking(p, geo, s', t, k)
                      && Outstanding(p, s, t, k)
      ensures Outstanding(p, s', t, k)
    {
      OutstandingCarried(p, geo, s, u, s', t, k);
    }
    Along((s, u, s') => Next(p, geo, s, u, s'), s => Looking(p, geo, s, t, k), s => Outstanding(p, s, t, k),
          run, acts, b, i);
  }

  /** If the key is present throughout, some element equal to it is older than the counter value read. */
  lemma OldThroughout<K(!new)>(p: KeyPolicy<K>, geo: Geometry, run: seq<State<K>>, acts: seq<nat>,
                               b: nat, i: nat, t: nat, k: K)
    requires Lawful(p) && IsRun(p, geo, run, acts) && LookupSpan(run, b, i, t) && k == run[b].threads[t].key
    requires forall j :: b <= j <= i ==> Present(p, run[j], k)
    ensures Outstanding(p, run[i], t, k)
  {
    forall j | b <= j <= i ensures Inv(p, geo, run[j]) {
      RunInv(p, geo, run, acts, j);
    }
    StepsOf(p, geo, run, acts);
    OutstandingFromStart(p, geo, run[b], acts[b], run[b + 1], t);
    OutstandingAlong(p, geo, run, acts, b + 1, i, t, k);
  }

  /** A lookup that ends without a match: at some moment since it began its key was absent. */
  lemma MissWasAbsent<K(!new)>(p: KeyPolicy<K>, geo: Geometry, run: seq<State<K>>, acts: seq<nat>,
                               b: nat, m: nat, t: nat) returns (j: nat)
    requires Lawful(p) && IsRun(p, geo, run, acts) && LookupSpan(run, b, m, t)
    requires Shaped(p, geo, run[m])
    requires run[m].threads[t].pc.TestOverflow? && Misses(p, geo, run[m], run[m].threads[t])
    ensures b <= j <= m && !Present(p, run[j], run[b].threads[t].key)
  {
    var k := run[b].threads[t].key;
    if forall i :: b <= i <= m ==> Present(p, run[i], k) {
      OldThroughout(p, geo, run, acts, b, m, t, k);
      RunInv(p, geo, run, acts, m);
      MissRulesOut(p, geo, run[m], run[m].threads[t]);
    }
    j :| b <= j <= m && !Present(p, run[j], k);
  }
}
