/** What the insertion counters, the maximum load and the overflow bits of the concurrent table record of its history. */
module ConcurrentMetadata {
  import opened SizePolicy
  import opened Keys
  import opened Probing
  import opened ConcurrentTable
  import opened ConcurrentSteps
  import opened ConcurrentSafety
  import opened ConcurrentRuns

  /** With its next step thread `t` checks the insertion counter of group `g`. */
  ghost predicate Checks<K>(p: KeyPolicy<K>, geo: Geometry, s: State<K>, t: nat, g: nat) {
    t < |s.threads| && s.threads[t].pc.InsCount? && Home(p, geo, s.threads[t].key) == g
  }

  /** With its next step thread `t` lowers the maximum load: the element it destroyed had caused overflow. */
  ghost predicate Lowers<K>(s: State<K>, t: nat) {
    && t < |s.threads| && s.threads[t].pc.EraseLoad? && s.threads[t].pc.slot < |s.slots|
    && var v := s.slots[s.threads[t].pc.slot];
       v.Dead? && OverBit(s.over, s.threads[t].pc.group, v.hash)
  }

  /** With its next step thread `t` marks group `g`, which is full, for the hash `h`. */
  ghost predicate Marks<K>(p: KeyPolicy<K>, geo: Geometry, s: State<K>, t: nat, g: nat, h: nat) {
    && t < |s.threads| && s.threads[t].pc.InsScan?
    && g == GroupAt(p, geo, s.threads[t].key, s.threads[t].pc.step) && h % 8 == p.hash(s.threads[t].key) % 8
    && Full(s, g)
  }

  ghost predicate Full<K>(s: State<K>, g: nat) {
    forall x: nat :: x < |s.slots| && GroupOf(x) == g ==> !s.slots[x].Free?
  }

  // ----- Single steps -----

  lemma CounterMoves<K>(p: KeyPolicy<K>, geo: Geometry, s: State<K>, t: nat, s': State<K>, g: nat)
    requires Safe(p, geo, s) && Next(p, geo, s, t, s') && g < |s.cnt|
    ensures |s'.cnt| == |s.cnt| && s'.cnt[g] == s.cnt[g] + if Checks(p, geo, s, t, g) then 1 else 0
  {
    if s.threads[t].pc.InsCount? {
      CountChanges(p, geo, s, t, s');
    } else if LookupStep(p, geo, s, t, s') {
      LookupChanges(p, geo, s, t, s');
    } else if SweepStep(p, geo, s, t, s') {
      SweepChanges(p, geo, s, t, s');
    } else if InsertStep(p, geo, s, t, s') && !s.threads[t].pc.InsScan? {
      InsertSettles(p, geo, s, t, s');
    }
  }

  lemma LoadMoves<K>(p: KeyPolicy<K>, geo: Geometry, s: State<K>, t: nat, s': State<K>)
    requires Safe(p, geo, s) && Next(p, geo, s, t, s')
    ensures s'.ml == s.ml - if Lowers(s, t) then 1 else 0
  {
    if s.threads[t].pc.EraseLoad? {
      EraseLowers(p, geo, s, t, s');
    } else if LookupStep(p, geo, s, t, s') {
      LookupChanges(p, geo, s, t, s');
    } else if SweepStep(p, geo, s, t, s') {
      SweepChanges(p, geo, s, t, s');
    } else if InsertStep(p, geo, s, t, s') {
      InsertKeepsLoad(p, geo, s, t, s');
    }
  }

  lemma InsertKeepsLoad<K>(p: KeyPolicy<K>, geo: Geometry, s: State<K>, t: nat, s': State<K>)
    requires Shaped(p, geo, s) && t < |s.threads| && InsertStep(p, geo, s, t, s')
    ensures s'.ml == s.ml
  {
  }

  lemma EraseLowers<K>(p: KeyPolicy<K>, geo: Geometry, s: State<K>, t: nat, s': State<K>)
    requires Safe(p, geo, s) && Next(p, geo, s, t, s') && s.threads[t].pc.EraseLoad?
    ensures s'.ml == s.ml - if Lowers(s, t) then 1 else 0
  {
    assert ShapedThread(p, geo, s.threads[t]);
    var pc := s.threads[t].pc;
    assert SlotInHand(pc) == pc.slot && InHandFor(p, s.threads[t], t, s.slots[pc.slot]);
  }

  lemma OverflowMoves<K>(p: KeyPolicy<K>, geo: Geometry, s: State<K>, t: nat, s': State<K>, g: nat, h: nat)
    requires Safe(p, geo, s) && Next(p, geo, s, t, s') && g < |s.over|
    ensures OverBit(s'.over, g, h) <==> OverBit(s.over, g, h) || Marks(p, geo, s, t, g, h)
  {
    if s.threads[t].pc.InsScan? {
      ScanMarks(p, geo, s, t, s', g, h);
    } else if s.threads[t].pc.InsCount? {
      CountChanges(p, geo, s, t, s');
    } else if LookupStep(p, geo, s, t, s') {
      LookupChanges(p, geo, s, t, s');
    } else if SweepStep(p, geo, s, t, s') {
      SweepChanges(p, geo, s, t, s');
    } else if InsertStep(p, geo, s, t, s') {
      InsertSettles(p, geo, s, t, s');
    }
  }

  lemma FreeMatches<K>(p: KeyPolicy<K>, s: State<K>, g: nat, x: nat)
    requires N * g + N <= |s.slots|
    ensures x in Matching(p, s, g, 0) <==> x < |s.slots| && GroupOf(x) == g && s.slots[x].Free?
  {
  }

  lemma FullMatches<K>(p: KeyPolicy<K>, s: State<K>, g: nat)
    requires N * g + N <= |s.slots|
    ensures Full(s, g) <==> Matching(p, s, g, 0) == {}
  {
    forall x: nat
      ensures x in Matching(p, s, g, 0) <==> x < |s.slots| && GroupOf(x) == g && s.slots[x].Free?
    {
      FreeMatches(p, s, g, x);
    }
  }

  lemma ScanMarks<K>(p: KeyPolicy<K>, geo: Geometry, s: State<K>, t: nat, s': State<K>, g: nat, h: nat)
    requires Safe(p, geo, s) && Next(p, geo, s, t, s') && s.threads[t].pc.InsScan? && g < |s.over|
    ensures OverBit(s'.over, g, h) <==> OverBit(s.over, g, h) || Marks(p, geo, s, t, g, h)
  {
    FullMatches(p, s, GroupAt(p, geo, s.threads[t].key, s.threads[t].pc.step));
  }

  /** A free slot reserved is the first of its group. */
  lemma ScanTakesFirst<K>(p: KeyPolicy<K>, geo: Geometry, s: State<K>, t: nat, s': State<K>)
    requires Safe(p, geo, s) && Next(p, geo, s, t, s') && s.threads[t].pc.InsScan? && s'.threads[t].pc.InsCount?
    ensures var th, x := s.threads[t], s'.threads[t].pc.slot;
            && x < |s.slots| && GroupOf(x) == GroupAt(p, geo, th.key, th.pc.step)
            && s.slots[x].Free? && s'.slots == s.slots[x := Reserved(p.hash(th.key), t)]
            && forall y: nat :: y < x && GroupOf(y) == GroupOf(x) ==> !s.slots[y].Free?
  {
    var g, x := GroupAt(p, geo, s.threads[t].key, s.threads[t].pc.step), s'.threads[t].pc.slot;
    forall y: nat | y < x && GroupOf(y) == GroupOf(x) ensures !s.slots[y].Free? {
      FreeMatches(p, s, g, y);
    }
  }

  /** With its next step thread `t` frees slot `x`. */
  ghost predicate Frees<K>(s: State<K>, t: nat, x: nat) {
    && t < |s.threads|
    && (s.threads[t].pc.InsUndo? || s.threads[t].pc.EraseReset?) && s.threads[t].pc.slot == x
  }

  /** The step from `s` to `s'` reserves slot `x` for the key of thread `t`. */
  ghost predicate Takes<K>(s: State<K>, t: nat, s': State<K>, x: nat) {
    && t < |s.threads| && t < |s'.threads|
    && s.threads[t].pc.InsScan? && s'.threads[t].pc.InsCount? && s'.threads[t].pc.slot == x
  }

  /** A metadata byte is set when a slot is reserved, to the reduced hash, and reset when it is freed; else it stays. */
  lemma MetadataMoves<K>(p: KeyPolicy<K>, geo: Geometry, s: State<K>, t: nat, s': State<K>, x: nat)
    requires Safe(p, geo, s) && Next(p, geo, s, t, s') && x < |s.slots|
    ensures |s'.slots| == |s.slots|
    ensures Tag(p, s'.slots[x]) == if Takes(s, t, s', x) then Reduced(p.hash(s.threads[t].key))
                                   else if Frees(s, t, x) then 0 else Tag(p, s.slots[x])
  {
    if s.threads[t].pc.InsScan? {
      ScanSetsMetadata(p, geo, s, t, s', x);
    } else if LookupStep(p, geo, s, t, s') {
      LookupChanges(p, geo, s, t, s');
    } else if SweepStep(p, geo, s, t, s') {
      SweepChanges(p, geo, s, t, s');
    } else if ReserveStep(p, geo, s, t, s') {
      ReserveAccounts(p, geo, s, t, s');
    } else if InsertStep(p, geo, s, t, s') {
      InsertKeepsMetadata(p, geo, s, t, s', x);
    } else if EraseStep(p, geo, s, t, s') {
      EraseKeepsMetadata(p, geo, s, t, s', x);
    }
  }

  lemma ScanSetsMetadata<K>(p: KeyPolicy<K>, geo: Geometry, s: State<K>, t: nat, s': State<K>, x: nat)
    requires Safe(p, geo, s) && Next(p, geo, s, t, s') && s.threads[t].pc.InsScan? && x < |s.slots|
    ensures |s'.slots| == |s.slots|
    ensures Tag(p, s'.slots[x]) == if Takes(s, t, s', x) then Reduced(p.hash(s.threads[t].key)) else Tag(p, s.slots[x])
  {
    if s'.threads[t].pc.InsCount? {
      ScanTakesFirst(p, geo, s, t, s');
    }
  }

  lemma InsertKeepsMetadata<K>(p: KeyPolicy<K>, geo: Geometry, s: State<K>, t: nat, s': State<K>, x: nat)
    requires Safe(p, geo, s) && t < |s.threads| && InsertStep(p, geo, s, t, s') && !s.threads[t].pc.InsScan?
    requires x < |s.slots|
    ensures |s'.slots| == |s.slots|
    ensures Tag(p, s'.slots[x]) == if Frees(s, t, x) then 0 else Tag(p, s.slots[x])
  {
    var pc := s.threads[t].pc;
    assert SlotInHand(pc) == pc.slot && InHandFor(p, s.threads[t], t, s.slots[pc.slot]);
    if pc.InsCount? {
      CountChanges(p, geo, s, t, s');
    } else {
      InsertSettles(p, geo, s, t, s');
    }
  }

  lemma EraseKeepsMetadata<K>(p: KeyPolicy<K>, geo: Geometry, s: State<K>, t: nat, s': State<K>, x: nat)
    requires Safe(p, geo, s) && t < |s.threads| && EraseStep(p, geo, s, t, s') && x < |s.slots|
    ensures |s'.slots| == |s.slots|
    ensures Tag(p, s'.slots[x]) == if Frees(s, t, x) then 0 else Tag(p, s.slots[x])
  {
    if s.threads[t].pc.EraseReset? {
      EraseSettles(p, geo, s, t, s');
    } else {
      EraseAccounts(p, geo, s, t, s');
    }
  }

  // ----- Runs -----

  /** The counter checks of group `g` among the first `i` steps. */
  ghost function CheckCount<K>(p: KeyPolicy<K>, geo: Geometry, run: seq<State<K>>, acts: seq<nat>, g: nat, i: nat): nat
    requires i < |run| == |acts| + 1
  {
    if i == 0 then 0
    else CheckCount(p, geo, run, acts, g, i - 1) + if Checks(p, geo, run[i - 1], acts[i - 1], g) then 1 else 0
  }

  /** The elements erased from groups whose overflow they had caused, by the first `i` steps. */
  ghost function LowerCount<K>(run: seq<State<K>>, acts: seq<nat>, i: nat): nat
    requires i < |run| == |acts| + 1
  {
    if i == 0 then 0
    else LowerCount(run, acts, i - 1) + if Lowers(run[i - 1], acts[i - 1]) then 1 else 0
  }

  lemma SafeStepInto<K(!new)>(p: KeyPolicy<K>, geo: Geometry, run: seq<State<K>>, acts: seq<nat>, i: nat)
    requires Lawful(p) && IsRun(p, geo, run, acts) && 0 < i < |run|
    ensures Safe(p, geo, run[i - 1]) && Next(p, geo, run[i - 1], acts[i - 1], run[i])
  {
    RunInv(p, geo, run, acts, i - 1);
    StepInto(p, geo, run, acts, i);
  }

  lemma StepMovesLoad<K(!new)>(p: KeyPolicy<K>, geo: Geometry, run: seq<State<K>>, acts: seq<nat>, i: nat)
    requires Lawful(p) && IsRun(p, geo, run, acts) && 0 < i < |run|
    ensures run[i].ml == run[i - 1].ml - if Lowers(run[i - 1], acts[i - 1]) then 1 else 0
  {
    SafeStepInto(p, geo, run, acts, i);
    LoadMoves(p, geo, run[i - 1], acts[i - 1], run[i]);
  }

  lemma StepMovesCounter<K(!new)>(p: KeyPolicy<K>, geo: Geometry, run: seq<State<K>>, acts: seq<nat>, g: nat, i: nat)
    requires Lawful(p) && IsRun(p, geo, run, acts) && 0 < i < |run| && g < |run[i - 1].cnt|
    ensures |run[i].cnt| == |run[i - 1].cnt|
    ensures run[i].cnt[g] == run[i - 1].cnt[g] + if Checks(p, geo, run[i - 1], acts[i - 1], g) then 1 else 0
  {
    SafeStepInto(p, geo, run, acts, i);
    CounterMoves(p, geo, run[i - 1], acts[i - 1], run[i], g);
  }

  lemma StepMovesBit<K(!new)>(p: KeyPolicy<K>, geo: Geometry, run: seq<State<K>>, acts: seq<nat>,
                              g: nat, h: nat, i: nat)
    requires Lawful(p) && IsRun(p, geo, run, acts) && 0 < i < |run| && g < geo.groups
    ensures OverBit(run[i].over, g, h)
            <==> OverBit(run[i - 1].over, g, h) || Marks(p, geo, run[i - 1], acts[i - 1], g, h)
  {
    SafeStepInto(p, geo, run, acts, i);
    OverflowMoves(p, geo, run[i - 1], acts[i - 1], run[i], g, h);
  }

  /** An insertion counter has grown by the checks made on it, passed and failed. */
  lemma {:induction false} CountersCountChecks<K(!new)>(p: KeyPolicy<K>, geo: Geometry, run: seq<State<K>>,
                                                        acts: seq<nat>, g: nat, i: nat)
    requires Lawful(p) && IsRun(p, geo, run, acts) && i < |run| && g < |run[0].cnt|
    ensures |run[i].cnt| == |run[0].cnt| && run[i].cnt[g] == run[0].cnt[g] + CheckCount(p, geo, run, acts, g, i)
  {
    if i > 0 {
      CountersCountChecks(p, geo, run, acts, g, i - 1);
      StepMovesCounter(p, geo, run, acts, g, i);
    }
  }

  /** The maximum load has dropped by the erased elements that had caused overflow, and for no other reason. */
  lemma {:induction false} LoadLost<K(!new)>(p: KeyPolicy<K>, geo: Geometry, run: seq<State<K>>, acts: seq<nat>, i: nat)
    requires Lawful(p) && IsRun(p, geo, run, acts) && i < |run|
    ensures run[i].ml == run[0].ml - LowerCount(run, acts, i)
  {
    if i > 0 {
      LoadLost(p, geo, run, acts, i - 1);
      StepMovesLoad(p, geo, run, acts, i);
    }
  }

  ghost predicate MarkedBefore<K>(p: KeyPolicy<K>, geo: Geometry, run: seq<State<K>>, acts: seq<nat>,
                                  g: nat, h: nat, i: nat)
    requires i < |run| == |acts| + 1
  {
    exists j: nat :: j < i && Marks(p, geo, run[j], acts[j], g, h)
  }

  /** An overflow bit is set exactly if it was at the start, or an insertion of such a hash has found the group full. */
  lemma {:induction false} OverflowIsMarked<K(!new)>(p: KeyPolicy<K>, geo: Geometry, run: seq<State<K>>,
                                                     acts: seq<nat>, g: nat, h: nat, i: nat)
    requires Lawful(p) && IsRun(p, geo, run, acts) && i < |run| && g < geo.groups
    ensures OverBit(run[i].over, g, h) <==> OverBit(run[0].over, g, h) || MarkedBefore(p, geo, run, acts, g, h, i)
  {
    if i > 0 {
      OverflowIsMarked(p, geo, run, acts, g, h, i - 1);
      StepMovesBit(p, geo, run, acts, g, h, i);
      if MarkedBefore(p, geo, run, acts, g, h, i) && !MarkedBefore(p, geo, run, acts, g, h, i - 1) {
        var j: nat :| j < i && Marks(p, geo, run[j], acts[j], g, h);
        assert j == i - 1;
      }
    }
  }
}
