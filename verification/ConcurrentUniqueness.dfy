/** No two threads ever insert equal keys: what lookups have seen, and what they cannot have missed. */
module ConcurrentUniqueness {
  import opened SizePolicy
  import opened Keys
  import opened Probing
  import opened ConcurrentTable
  import opened ConcurrentSteps
  import opened ConcurrentSafety

  // ----- Reachability -----

  /** How many groups an inserting thread has found full and marked. */
  function MarkedSteps(pc: PC): int {
    match pc
    case InsLock(i) => i
    case InsScan(i) => i
    case InsPass(i) => i + 1
    case InsCount(i, _) => i
    case _ => 0
  }

  /** An element can be reached from its home group and holds a ticket already issued there. */
  ghost predicate Sound<K>(p: KeyPolicy<K>, geo: Geometry, over: seq<seq<bool>>, cnt: seq<nat>, x: nat, v: Slot<K>)
  {
    v.HasKey() ==>
      && Home(p, geo, v.key) < |cnt|
      && v.ticket < cnt[Home(p, geo, v.key)]
      && Reaches(geo, over, p.hash(v.key), GroupOf(x))
  }

  ghost predicate Reachable<K>(p: KeyPolicy<K>, geo: Geometry, s: State<K>)
  {
    && (forall x :: 0 <= x < |s.slots| ==> Sound(p, geo, s.over, s.cnt, x, s.slots[x]))
    && (forall t :: 0 <= t < |s.threads| ==>
                      BitsUpTo(geo, s.over, p.hash(s.threads[t].key), MarkedSteps(s.threads[t].pc)))
  }

  ghost predicate CountersGrow(a: seq<nat>, b: seq<nat>) {
    |a| == |b| && forall g :: 0 <= g < |a| ==> a[g] <= b[g]
  }

  /** Counters and overflow bits only grow, so what is reachable stays reachable. */
  lemma ReachableKept<K>(p: KeyPolicy<K>, geo: Geometry, s: State<K>, t: nat, th: Thread<K>, s': State<K>)
    requires t < |s.threads| && Reachable(p, geo, s)
    requires s'.slots == s.slots && s'.threads == s.threads[t := th]
    requires Grows(s.over, s'.over) && CountersGrow(s.cnt, s'.cnt)
    requires BitsUpTo(geo, s'.over, p.hash(th.key), MarkedSteps(th.pc))
    ensures Reachable(p, geo, s')
  {
    forall x | 0 <= x < |s.slots| ensures Sound(p, geo, s'.over, s'.cnt, x, s.slots[x]) {
      assert Sound(p, geo, s.over, s.cnt, x, s.slots[x]);
      if s.slots[x].HasKey() {
        ReachesGrows(geo, s.over, s'.over, p.hash(s.slots[x].key), GroupOf(x));
      }
    }
  }

  /** The same when slot `x` changes to a sound value as well. */
  lemma ReachablePut<K>(p: KeyPolicy<K>, geo: Geometry, s: State<K>, t: nat, th: Thread<K>, x: nat, s': State<K>)
    requires t < |s.threads| && x < |s.slots| == |s'.slots| && Reachable(p, geo, s)
    requires s'.slots == s.slots[x := s'.slots[x]] && s'.threads == s.threads[t := th]
    requires s'.over == s.over && CountersGrow(s.cnt, s'.cnt)
    requires Sound(p, geo, s'.over, s'.cnt, x, s'.slots[x])
    requires BitsUpTo(geo, s'.over, p.hash(th.key), MarkedSteps(th.pc))
    ensures Reachable(p, geo, s')
  {
    forall y | 0 <= y < |s.slots| && y != x ensures Sound(p, geo, s'.over, s'.cnt, y, s.slots[y]) {
      assert Sound(p, geo, s.over, s.cnt, y, s.slots[y]);
    }
  }

  lemma SameTableKeepsReachable<K>(p: KeyPolicy<K>, geo: Geometry, s: State<K>, t: nat, s': State<K>)
    requires t < |s.threads| == |s'.threads| && s'.threads == s.threads[t := s'.threads[t]] && SameTable(s, s')
    requires MarkedSteps(s'.threads[t].pc) <= MarkedSteps(s.threads[t].pc)
    requires s'.threads[t].key == s.threads[t].key || MarkedSteps(s'.threads[t].pc) == 0
    requires Reachable(p, geo, s)
    ensures Reachable(p, geo, s')
  {
    assert BitsUpTo(geo, s.over, p.hash(s.threads[t].key), MarkedSteps(s.threads[t].pc));
    ReachableKept(p, geo, s, t, s'.threads[t], s');
  }

  lemma DestroyKeepsReachable<K>(p: KeyPolicy<K>, geo: Geometry, s: State<K>, t: nat, s': State<K>)
    requires Destroys(p, geo, s, t, s') && Reachable(p, geo, s)
    ensures Reachable(p, geo, s')
  {
    ReachablePut(p, geo, s, t, s'.threads[t], s'.threads[t].pc.slot, s');
  }

  /** A slot promised in the group scanned last can be reached, the groups before it being marked. */
  lemma PromisedIsSound<K>(p: KeyPolicy<K>, geo: Geometry, over: seq<seq<bool>>, cnt: seq<nat>, x: nat, v: Slot<K>, i: nat)
    requires v.Promised? && BitsUpTo(geo, over, p.hash(v.key), i) && GroupOf(x) == GroupAt(p, geo, v.key, i)
    requires Home(p, geo, v.key) < |cnt| && v.ticket < cnt[Home(p, geo, v.key)]
    ensures Sound(p, geo, over, cnt, x, v)
  {
    BitsReach(geo, over, p.hash(v.key), i);
  }

  lemma CountKeepsReachable<K>(p: KeyPolicy<K>, geo: Geometry, s: State<K>, t: nat, s': State<K>)
    requires Counts(p, geo, s, t, s') && Reachable(p, geo, s)
    ensures Reachable(p, geo, s')
  {
    var th, x := s.threads[t], s.threads[t].pc.slot;
    if s'.threads[t].pc.InsConstruct? {
      assert BitsUpTo(geo, s.over, p.hash(th.key), MarkedSteps(th.pc));
      PromisedIsSound(p, geo, s.over, s'.cnt, x, s'.slots[x], th.pc.step);
      ReachablePut(p, geo, s, t, s'.threads[t], x, s');
    } else {
      ReachableKept(p, geo, s, t, s'.threads[t], s');
    }
  }

  lemma MarkKeepsReachable<K>(p: KeyPolicy<K>, geo: Geometry, s: State<K>, t: nat, s': State<K>)
    requires Shaped(p, geo, s) && t < |s.threads| && s.threads[t].pc.InsScan? && ScanStep(p, geo, s, t, s')
    requires s'.threads[t].pc.InsPass?
    requires Reachable(p, geo, s)
    ensures Reachable(p, geo, s')
  {
    var th := s.threads[t];
    assert BitsUpTo(geo, s.over, p.hash(th.key), th.pc.step);
    SetBitGrows(s.over, GroupAt(p, geo, th.key, th.pc.step), p.hash(th.key));
    ReachableKept(p, geo, s, t, s'.threads[t], s');
  }

  lemma ScanKeepsReachable<K>(p: KeyPolicy<K>, geo: Geometry, s: State<K>, t: nat, s': State<K>)
    requires Shaped(p, geo, s) && t < |s.threads| && s.threads[t].pc.InsScan? && ScanStep(p, geo, s, t, s')
    requires Reachable(p, geo, s)
    ensures Reachable(p, geo, s')
  {
    var th, th' := s.threads[t], s'.threads[t];
    if th'.pc.InsCount? {
      assert BitsUpTo(geo, s.over, p.hash(th.key), th.pc.step);
      ReachablePut(p, geo, s, t, th', th'.pc.slot, s');
    } else {
      MarkKeepsReachable(p, geo, s, t, s');
    }
  }

  /** Constructing a promised element keeps its key and ticket; freeing a slot takes nothing else away. */
  lemma SettleKeepsReachable<K>(p: KeyPolicy<K>, geo: Geometry, s: State<K>, t: nat, s': State<K>)
    requires Settles(p, geo, s, t, s') && Reachable(p, geo, s)
    ensures Reachable(p, geo, s')
  {
    var x := s.threads[t].pc.slot;
    assert Sound(p, geo, s.over, s.cnt, x, s.slots[x]);
    ReachablePut(p, geo, s, t, s'.threads[t], x, s');
  }

  // ----- What a lookup has ruled out -----

  /** Where an element equal to the key of `th` can still be when it was there before `th` began. */
  ghost predicate Ahead<K>(p: KeyPolicy<K>, geo: Geometry, th: Thread<K>, x: nat)
  {
    var home, g, groups := Home(p, geo, th.key), GroupOf(x), geo.groups;
    match th.pc
    case Probe(i) => Unvisited(geo, home, g, i)
    case Await(i, m) => Unvisited(geo, home, g, i) && (g == GroupAt(p, geo, th.key, i) ==> x in m)
    case Compare(i, m) => Unvisited(geo, home, g, i) && (g == GroupAt(p, geo, th.key, i) ==> x in m)
    case TestOverflow(i) => Unvisited(geo, home, g, i + 1)
    case ReserveSize => false
    case TestSize(_) => false
    case InsLock(_) => false
    case InsScan(_) => false
    case InsPass(_) => false
    case InsCount(_, _) => false
    case _ => true
  }

  /** An equal element whose ticket is older than the counter value `th` read lies ahead of `th`. */
  ghost predicate SeenAt<K>(p: KeyPolicy<K>, geo: Geometry, th: Thread<K>, x: nat, v: Slot<K>)
  {
    v.HasKey() && v.ticket < th.counter && p.eq(th.key, v.key) ==> Ahead(p, geo, th, x)
  }

  ghost predicate SeenBy<K>(p: KeyPolicy<K>, geo: Geometry, slots: seq<Slot<K>>, th: Thread<K>)
  {
    forall x :: 0 <= x < |slots| ==> SeenAt(p, geo, th, x, slots[x])
  }

  ghost predicate CounterOk<K>(p: KeyPolicy<K>, geo: Geometry, cnt: seq<nat>, th: Thread<K>)
  {
    !th.pc.Done? && !th.pc.Begin? ==>
      Home(p, geo, th.key) < |cnt| && th.counter <= cnt[Home(p, geo, th.key)]
  }

  ghost predicate Seen<K>(p: KeyPolicy<K>, geo: Geometry, s: State<K>)
  {
    forall t :: 0 <= t < |s.threads| ==>
                  && SeenBy(p, geo, s.slots, s.threads[t])
                  && CounterOk(p, geo, s.cnt, s.threads[t])
  }

  lemma SeenKept<K>(p: KeyPolicy<K>, geo: Geometry, s: State<K>, t: nat, th: Thread<K>, s': State<K>)
    requires t < |s.threads| && Seen(p, geo, s)
    requires s'.slots == s.slots && s'.threads == s.threads[t := th]
    requires CountersGrow(s.cnt, s'.cnt)
    requires SeenBy(p, geo, s.slots, th) && CounterOk(p, geo, s'.cnt, th)
    ensures Seen(p, geo, s')
  {
    forall u | 0 <= u < |s.threads| && u != t
      ensures SeenBy(p, geo, s.slots, s.threads[u]) && CounterOk(p, geo, s'.cnt, s.threads[u])
    {
      assert CounterOk(p, geo, s.cnt, s.threads[u]);
    }
  }

  /** The same when slot `x` becomes `v`: an old element, none, or one with a ticket just issued. */
  lemma SeenPut<K>(p: KeyPolicy<K>, geo: Geometry, s: State<K>, t: nat, th: Thread<K>, x: nat, s': State<K>)
    requires t < |s.threads| && x < |s.slots| == |s'.slots| && Seen(p, geo, s)
    requires s'.slots == s.slots[x := s'.slots[x]] && s'.threads == s.threads[t := th]
    requires CountersGrow(s.cnt, s'.cnt)
    requires SeenBy(p, geo, s'.slots, th) && CounterOk(p, geo, s'.cnt, th)
    requires forall u :: 0 <= u < |s.threads| && u != t ==> SeenAt(p, geo, s.threads[u], x, s'.slots[x])
    ensures Seen(p, geo, s')
  {
    forall u | 0 <= u < |s.threads| && u != t
      ensures SeenBy(p, geo, s'.slots, s.threads[u]) && CounterOk(p, geo, s'.cnt, s.threads[u])
    {
      assert SeenBy(p, geo, s.slots, s.threads[u]) && CounterOk(p, geo, s.cnt, s.threads[u]);
      forall y | 0 <= y < |s.slots| ensures SeenAt(p, geo, s.threads[u], y, s'.slots[y]) {
        assert SeenAt(p, geo, s.threads[u], y, s.slots[y]);
      }
    }
  }

  /** A thread past its lookup and its counter check has nothing left to rule out. */
  lemma NothingAhead<K>(p: KeyPolicy<K>, geo: Geometry, slots: seq<Slot<K>>, th: Thread<K>)
    requires || th.pc.InsConstruct? || th.pc.InsUndo? || th.pc.InsRelease? || th.pc.Unlock?
             || th.pc.EraseLoad? || th.pc.EraseReset? || th.pc.EraseSize?
             || th.pc.SweepLock? || th.pc.SweepScan? || th.pc.SweepNext? || th.pc.Done?
    ensures SeenBy(p, geo, slots, th)
  {
  }

  /** At the start of a lookup everything lies ahead. */
  lemma BeginSees<K>(p: KeyPolicy<K>, geo: Geometry, slots: seq<Slot<K>>, th: Thread<K>)
    requires th.pc == Probe(0) || th.pc.SweepLock?
    ensures SeenBy(p, geo, slots, th)
  {
  }

  lemma AwaitSees<K>(p: KeyPolicy<K>, geo: Geometry, slots: seq<Slot<K>>, th: Thread<K>)
    requires th.pc.Await? && SeenBy(p, geo, slots, th)
    ensures SeenBy(p, geo, slots, th.(pc := Compare(th.pc.step, th.pc.mask)))
  {
    var th' := th.(pc := Compare(th.pc.step, th.pc.mask));
    forall x | 0 <= x < |slots| ensures SeenAt(p, geo, th', x, slots[x]) {
      assert SeenAt(p, geo, th, x, slots[x]);
    }
  }

  /** The unlocked match leaves out no element that was there before. */
  lemma ProbeSees<K(!new)>(p: KeyPolicy<K>, geo: Geometry, s: State<K>, th: Thread<K>)
    requires Lawful(p) && Shaped(p, geo, s) && ShapedThread(p, geo, th)
    requires th.pc.Probe? && SeenBy(p, geo, s.slots, th)
    ensures var i := th.pc.step;
            var m := Matching(p, s, GroupAt(p, geo, th.key, i), Reduced(p.hash(th.key)));
            SeenBy(p, geo, s.slots, th.(pc := if m == {} then TestOverflow(i) else Await(i, m)))
  {
    var i := th.pc.step;
    var g := GroupAt(p, geo, th.key, i);
    var m := Matching(p, s, g, Reduced(p.hash(th.key)));
    var th' := th.(pc := if m == {} then TestOverflow(i) else Await(i, m));
    forall x | 0 <= x < |s.slots| ensures SeenAt(p, geo, th', x, s.slots[x]) {
      assert SeenAt(p, geo, th, x, s.slots[x]);
      var v := s.slots[x];
      if v.HasKey() && v.ticket < th.counter && p.eq(th.key, v.key) && GroupOf(x) == g {
        assert Tag(p, v) == Reduced(p.hash(th.key));
        assert x in m;
      }
    }
  }

  /** A compared slot without an equal key is no such element, the lock having settled it. */
  lemma CompareSees<K>(p: KeyPolicy<K>, geo: Geometry, slots: seq<Slot<K>>, th: Thread<K>, x: nat)
    requires th.pc.Compare? && SeenBy(p, geo, slots, th)
    requires x < |slots| && !slots[x].InHand()
    requires !(slots[x].Live? && p.eq(th.key, slots[x].key))
    ensures var Compare(i, m) := th.pc;
            SeenBy(p, geo, slots, th.(pc := if m - {x} == {} then TestOverflow(i) else Compare(i, m - {x})))
  {
    var Compare(i, m) := th.pc;
    var th' := th.(pc := if m - {x} == {} then TestOverflow(i) else Compare(i, m - {x}));
    forall y | 0 <= y < |slots| ensures SeenAt(p, geo, th', y, slots[y]) {
      assert SeenAt(p, geo, th, y, slots[y]);
      assert y in m ==> y == x || y in m - {x};
    }
  }

  /** No element equal to the key of `th` was there when `th` read the counter and is still there. */
  ghost predicate RuledOut<K>(p: KeyPolicy<K>, slots: seq<Slot<K>>, th: Thread<K>) {
    forall x :: 0 <= x < |slots| && slots[x].HasKey() && p.eq(th.key, slots[x].key) ==>
                  slots[x].ticket >= th.counter
  }

  /** A clear overflow bit, or the end of the probe sequence, rules out every such element. */
  lemma MissRulesOut<K(!new)>(p: KeyPolicy<K>, geo: Geometry, s: State<K>, th: Thread<K>)
    requires Lawful(p) && Shaped(p, geo, s) && ShapedThread(p, geo, th)
    requires th.pc.TestOverflow? && SeenBy(p, geo, s.slots, th) && Misses(p, geo, s, th)
    requires forall x :: 0 <= x < |s.slots| ==> Sound(p, geo, s.over, s.cnt, x, s.slots[x])
    ensures RuledOut(p, s.slots, th)
  {
    var i := th.pc.step;
    forall x | 0 <= x < |s.slots| && s.slots[x].HasKey() && p.eq(th.key, s.slots[x].key)
      ensures s.slots[x].ticket >= th.counter
    {
      var v := s.slots[x];
      assert SeenAt(p, geo, th, x, v);
      if v.ticket < th.counter {
        assert Sound(p, geo, s.over, s.cnt, x, v);
        assert Home(p, geo, v.key) == Home(p, geo, th.key);
        assert Unvisited(geo, Home(p, geo, v.key), GroupOf(x), i + 1);
        assert OverBit(s.over, GroupAt(p, geo, v.key, i), p.hash(v.key));
        if i + 1 >= geo.groups {
          NothingUnvisited(geo, Home(p, geo, v.key), GroupOf(x), i + 1);
        }
      }
    }
  }

  lemma OverflowSees<K(!new)>(p: KeyPolicy<K>, geo: Geometry, s: State<K>, th: Thread<K>)
    requires Lawful(p) && Shaped(p, geo, s) && ShapedThread(p, geo, th)
    requires th.pc.TestOverflow? && SeenBy(p, geo, s.slots, th)
    requires forall x :: 0 <= x < |s.slots| ==> Sound(p, geo, s.over, s.cnt, x, s.slots[x])
    ensures SeenBy(p, geo, s.slots,
                   th.(pc := if Misses(p, geo, s, th) then Miss(th.op) else Probe(th.pc.step + 1)))
  {
    if Misses(p, geo, s, th) {
      MissRulesOut(p, geo, s, th);
    } else {
      forall x | 0 <= x < |s.slots|
        ensures SeenAt(p, geo, th.(pc := Probe(th.pc.step + 1)), x, s.slots[x])
      {
        assert SeenAt(p, geo, th, x, s.slots[x]);
      }
    }
  }

  // ----- No duplicates -----

  ghost predicate Distinct<K>(p: KeyPolicy<K>, slots: seq<Slot<K>>) {
    forall x, y :: 0 <= x < |slots| && 0 <= y < |slots| && x != y && slots[x].HasKey() && slots[y].HasKey() ==>
                     !p.eq(slots[x].key, slots[y].key)
  }

  lemma PassKeepsSeen<K>(p: KeyPolicy<K>, geo: Geometry, s: State<K>, t: nat, s': State<K>)
    requires Passes(s, t, s') && Seen(p, geo, s)
    requires SeenBy(p, geo, s.slots, s'.threads[t]) && CounterOk(p, geo, s.cnt, s'.threads[t])
    ensures Seen(p, geo, s')
  {
    SeenKept(p, geo, s, t, s'.threads[t], s');
  }

  lemma DestroyKeepsSeen<K>(p: KeyPolicy<K>, geo: Geometry, s: State<K>, t: nat, s': State<K>)
    requires Destroys(p, geo, s, t, s') && MovesOne(p, geo, s, t, s')
    requires Seen(p, geo, s)
    ensures Seen(p, geo, s')
  {
    var th' := s'.threads[t];
    assert CounterOk(p, geo, s.cnt, s.threads[t]);
    NothingAhead(p, geo, s'.slots, th');
    SeenPut(p, geo, s, t, th', th'.pc.slot, s');
  }

  lemma CompareKeepsSeenBy<K>(p: KeyPolicy<K>, geo: Geometry, s: State<K>, t: nat, s': State<K>)
    requires Shaped(p, geo, s) && t < |s.threads| && s.threads[t].pc.Compare? && CompareStep(p, geo, s, t, s')
    requires Passes(s, t, s') && !s'.threads[t].pc.EraseLoad? && !s'.threads[t].pc.Unlock?
    requires GroupsExclusive(p, geo, s.threads) && Hands(p, s.slots, s.threads)
    requires SeenBy(p, geo, s.slots, s.threads[t])
    ensures SeenBy(p, geo, s.slots, s'.threads[t])
  {
    var th, th' := s.threads[t], s'.threads[t];
    var x: nat :| Lowest(x, th.pc.mask) && x < |s.slots|
                  && th' == th.(pc := if th.pc.mask - {x} == {} then TestOverflow(th.pc.step)
                                      else Compare(th.pc.step, th.pc.mask - {x}))
                  && !(s.slots[x].Live? && p.eq(th.key, s.slots[x].key));
    ComparedSlotIsSettled(p, geo, s, t, x);
    CompareSees(p, geo, s.slots, th, x);
  }

  lemma LookupKeepsSeenBy<K(!new)>(p: KeyPolicy<K>, geo: Geometry, s: State<K>, t: nat, s': State<K>)
    requires Lawful(p) && Shaped(p, geo, s) && t < |s.threads| && LookupStep(p, geo, s, t, s')
    requires Passes(s, t, s') && !s'.threads[t].pc.EraseLoad?
    requires GroupsExclusive(p, geo, s.threads) && Hands(p, s.slots, s.threads) && Reachable(p, geo, s)
    requires SeenBy(p, geo, s.slots, s.threads[t])
    ensures SeenBy(p, geo, s.slots, s'.threads[t])
  {
    var th, th' := s.threads[t], s'.threads[t];
    assert ShapedThread(p, geo, th);
    if th'.pc.Unlock? || th'.pc.Done? {
      NothingAhead(p, geo, s.slots, th');
    } else {
      match th.pc {
        case Begin => BeginSees(p, geo, s.slots, th');
        case Await(_, _) => AwaitSees(p, geo, s.slots, th);
        case Probe(_) => ProbeSees(p, geo, s, th);
        case Compare(_, _) => CompareKeepsSeenBy(p, geo, s, t, s');
        case TestOverflow(_) => OverflowSees(p, geo, s, th);
        case _ =>
      }
    }
  }

  lemma AccountKeepsSeen<K>(p: KeyPolicy<K>, geo: Geometry, s: State<K>, t: nat, s': State<K>)
    requires Accounts(p, geo, s, t, s') && Seen(p, geo, s)
    ensures Seen(p, geo, s')
  {
    assert SeenBy(p, geo, s.slots, s.threads[t]) && CounterOk(p, geo, s.cnt, s.threads[t]);
    forall x | 0 <= x < |s.slots| ensures SeenAt(p, geo, s'.threads[t], x, s.slots[x]) {
      assert SeenAt(p, geo, s.threads[t], x, s.slots[x]);
    }
    SeenKept(p, geo, s, t, s'.threads[t], s');
  }

  lemma SettleKeepsSeen<K>(p: KeyPolicy<K>, geo: Geometry, s: State<K>, t: nat, s': State<K>)
    requires Settles(p, geo, s, t, s') && Seen(p, geo, s)
    ensures Seen(p, geo, s')
  {
    var th', x := s'.threads[t], s.threads[t].pc.slot;
    assert CounterOk(p, geo, s.cnt, s.threads[t]);
    NothingAhead(p, geo, s'.slots, th');
    forall u | 0 <= u < |s.threads| && u != t ensures SeenAt(p, geo, s.threads[u], x, s'.slots[x]) {
      assert SeenBy(p, geo, s.slots, s.threads[u]) && SeenAt(p, geo, s.threads[u], x, s.slots[x]);
    }
    SeenPut(p, geo, s, t, th', x, s');
  }

  lemma ScanKeepsSeen<K>(p: KeyPolicy<K>, geo: Geometry, s: State<K>, t: nat, s': State<K>)
    requires Shaped(p, geo, s) && t < |s.threads| && s.threads[t].pc.InsScan? && ScanStep(p, geo, s, t, s')
    requires Seen(p, geo, s)
    ensures Seen(p, geo, s')
  {
    var th, th' := s.threads[t], s'.threads[t];
    assert SeenBy(p, geo, s.slots, th) && CounterOk(p, geo, s.cnt, th);
    forall x | 0 <= x < |s'.slots| ensures SeenAt(p, geo, th', x, s'.slots[x]) {
      assert SeenAt(p, geo, th, x, s.slots[x]);
    }
    if th'.pc.InsCount? {
      SeenPut(p, geo, s, t, th', th'.pc.slot, s');
    } else {
      SeenKept(p, geo, s, t, th', s');
    }
  }

  /** A ticket just issued at a home group is no older than any counter value read there. */
  lemma FreshTicket<K(!new)>(p: KeyPolicy<K>, geo: Geometry, s: State<K>, u: nat, x: nat, v: Slot<K>)
    requires Lawful(p) && u < |s.threads| && Seen(p, geo, s)
    requires v.HasKey() && Home(p, geo, v.key) < |s.cnt| && v.ticket == s.cnt[Home(p, geo, v.key)]
    ensures SeenAt(p, geo, s.threads[u], x, v)
  {
    assert CounterOk(p, geo, s.cnt, s.threads[u]);
  }

  lemma CountKeepsSeen<K(!new)>(p: KeyPolicy<K>, geo: Geometry, s: State<K>, t: nat, s': State<K>)
    requires Lawful(p) && Counts(p, geo, s, t, s') && Seen(p, geo, s)
    ensures Seen(p, geo, s')
  {
    var th, th', x := s.threads[t], s'.threads[t], s.threads[t].pc.slot;
    assert CounterOk(p, geo, s.cnt, th);
    NothingAhead(p, geo, s'.slots, th');
    if th'.pc.InsConstruct? {
      forall u | 0 <= u < |s.threads| && u != t ensures SeenAt(p, geo, s.threads[u], x, s'.slots[x]) {
        FreshTicket(p, geo, s, u, x, s'.slots[x]);
      }
      SeenPut(p, geo, s, t, th', x, s');
    } else {
      SeenKept(p, geo, s, t, th', s');
    }
  }

  /** The counter check that lets an insertion through proves that no equal key is present. */
  lemma CheckedInsertIsFresh<K>(p: KeyPolicy<K>, geo: Geometry, s: State<K>, t: nat, y: nat)
    requires t < |s.threads| && y < |s.slots|
    requires s.threads[t].pc.InsCount?
    requires Reachable(p, geo, s) && Seen(p, geo, s)
    requires s.slots[y].HasKey() && p.eq(s.threads[t].key, s.slots[y].key)
    requires p.hash(s.threads[t].key) == p.hash(s.slots[y].key)
    ensures Home(p, geo, s.threads[t].key) < |s.cnt|
    ensures s.cnt[Home(p, geo, s.threads[t].key)] != s.threads[t].counter
  {
    assert Sound(p, geo, s.over, s.cnt, y, s.slots[y]);
    assert SeenAt(p, geo, s.threads[t], y, s.slots[y]);
  }

  lemma CountKeepsDistinct<K(!new)>(p: KeyPolicy<K>, geo: Geometry, s: State<K>, t: nat, s': State<K>)
    requires Lawful(p) && Counts(p, geo, s, t, s')
    requires Reachable(p, geo, s) && Seen(p, geo, s) && Distinct(p, s.slots)
    ensures Distinct(p, s'.slots)
  {
    if s'.threads[t].pc.InsConstruct? {
      forall y | 0 <= y < |s.slots| && s.slots[y].HasKey() ensures !p.eq(s.threads[t].key, s.slots[y].key) {
        if p.eq(s.threads[t].key, s.slots[y].key) {
          CheckedInsertIsFresh(p, geo, s, t, y);
        }
      }
    }
  }

  lemma InsertKeepsDistinct<K(!new)>(p: KeyPolicy<K>, geo: Geometry, s: State<K>, t: nat, s': State<K>)
    requires Lawful(p) && Shaped(p, geo, s) && t < |s.threads| && InsertStep(p, geo, s, t, s')
    requires Reachable(p, geo, s) && Seen(p, geo, s) && Distinct(p, s.slots)
    ensures Distinct(p, s'.slots)
  {
    if s.threads[t].pc.InsCount? {
      CountChanges(p, geo, s, t, s');
      CountKeepsDistinct(p, geo, s, t, s');
    } else if !s.threads[t].pc.InsScan? {
      InsertSettles(p, geo, s, t, s');
    }
  }
}
