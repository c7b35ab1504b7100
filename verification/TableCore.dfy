/** The sequential open-addressing table: in-place operations that refine a set of elements with distinct keys. */
module TableCore {
  import opened Prober
  import opened SizePolicy
  import opened Keys
  import opened Probing
  import opened TableLayout
  import opened Wrappers

  /** A pair of group and element arrays; `backed` is false for the shared empty storage. */
  datatype Arrays<E> = Arrays(geo: TableGeometry, groups: array<Group>, elements: array<Option<E>>, backed: bool)

  ghost predicate ArraysOk<K, E>(p: Policy<K, E>, a: Arrays<E>)
    reads a.groups, a.elements
  {
    && Placed(p, a.geo, a.groups[..], a.elements[..])
    && if a.backed then SentinelLast(a.groups[..]) else Used(a.elements[..]) == {}
  }

  function CapacityOf<E>(a: Arrays<E>): nat
    requires a.geo.groups > 0
  {
    if a.backed then N * a.geo.groups - 1 else 0
  }

  lemma ArrayBits(n: nat)
    requires n < Pow2(WORD)
    ensures 1 <= WORD - SizeIndexFor(n) <= WORD
    ensures n > 0 ==> CapacityFor(n) == N * Pow2(WORD - SizeIndexFor(n)) - 1
  {
    var m := n / N + 1;
    if m > 2 {
      BitWidthBounds(m - 1);
      if BitWidth(m - 1) > WORD {
        Pow2Mono(WORD, BitWidth(m - 1) - 1);
      }
    }
  }

  method NewArrays<K, E>(p: Policy<K, E>, n: nat) returns (a: Arrays<E>)
    requires n < Pow2(WORD)
    ensures fresh(a.groups) && fresh(a.elements)
    ensures a.geo.groups == Size(SizeIndexFor(n)) && a.backed == (n > 0)
    ensures ArraysOk(p, a)
    ensures Used(a.elements[..]) == {} && Contents(a.elements[..]) == {} && Distinct(p, a.elements[..])
    ensures CapacityOf(a) == if n > 0 then CapacityFor(n) else 0
  {
    ArrayBits(n);
    a := EmptyArrays(p, Actual(WORD - SizeIndexFor(n)), n > 0);
  }

  method EmptyArrays<K, E>(p: Policy<K, E>, geo: TableGeometry, backed: bool) returns (a: Arrays<E>)
    ensures fresh(a.groups) && fresh(a.elements)
    ensures a.geo == geo && a.backed == backed && ArraysOk(p, a)
    ensures Used(a.elements[..]) == {} && Contents(a.elements[..]) == {} && Distinct(p, a.elements[..])
  {
    ActualIsRegular(geo);
    var size := geo.groups;
    // the storage shared by empty tables has a sentinel in every group
    var groups := new Group[size](g => EmptyGroup(!backed || g == size - 1));
    assert forall g :: 0 <= g < size ==> groups[g] == EmptyGroup(!backed || g == size - 1);
    var elements := new Option<E>[N * size](_ => None);
    assert forall x :: 0 <= x < N * size ==> elements[x] == None;
    a := Arrays(geo, groups, elements, backed);
    EmptyPlaced(p, geo, groups[..], elements[..]);
  }

  lemma EmptyPlaced<K, E>(p: Policy<K, E>, geo: Geometry, gs: seq<Group>, es: seq<Option<E>>)
    requires Shape(geo, gs, es)
    requires forall g, n :: 0 <= g < |gs| && 0 <= n < N ==> gs[g].tags[n] <= 1
    requires forall x :: 0 <= x < |es| ==> es[x].None?
    ensures Placed(p, geo, gs, es)
    ensures Used(es) == {} && Contents(es) == {} && Distinct(p, es)
  {
    forall g, n | 0 <= g < |gs| && 0 <= n < N ensures SlotOk(p, geo, gs, es, g, n) {
      assert Elem(es, g, n).None?;
    }
  }

  ghost predicate Absent<K, E>(p: Policy<K, E>, es: seq<Option<E>>, k: K) {
    forall x :: 0 <= x < |es| && es[x].Some? ==> !p.keys.eq(k, p.key(es[x].value))
  }

  /** No slot of group `g` whose reduced hash matches `k` holds an equal key. */
  ghost predicate NoneMatches<K, E>(p: Policy<K, E>, gs: seq<Group>, es: seq<Option<E>>, k: K, g: nat)
    requires g < |gs| && gs[g].Ok() && N * g + N <= |es|
  {
    forall n: nat :: n < N && gs[g].tags[n] == Reduced(p.keys.hash(k)) && Elem(es, g, n).Some? ==>
                       !p.keys.eq(k, p.key(Elem(es, g, n).value))
  }

  /** Lookup of `k` has compared everything up to probe step `i`. */
  ghost predicate Compared<K, E>(p: Policy<K, E>, geo: Geometry, gs: seq<Group>, es: seq<Option<E>>, k: K, i: nat)
    requires Shape(geo, gs, es)
  {
    forall j: nat :: j < i ==> NoneMatches(p, gs, es, k, Probed(geo, p.keys.hash(k), j))
  }

  lemma ComparedMore<K, E>(p: Policy<K, E>, geo: Geometry, gs: seq<Group>, es: seq<Option<E>>, k: K, i: nat)
    requires Shape(geo, gs, es) && Compared(p, geo, gs, es, k, i)
    requires NoneMatches(p, gs, es, k, Probed(geo, p.keys.hash(k), i))
    ensures Compared(p, geo, gs, es, k, i + 1)
  {
  }

  /** Lookup may stop at step `i`: a clear overflow bit, or every group was seen. */
  ghost predicate MayStop(geo: Geometry, gs: seq<Group>, hash: nat, i: nat)
  {
    !OverBit(Overs(gs), Probed(geo, hash, i), hash) || i + 1 >= geo.groups
  }

  /** Stopping there has not skipped the key: it is nowhere in the table. */
  lemma ProbingComplete<K(!new), E(!new)>(p: Policy<K, E>, geo: Geometry, gs: seq<Group>, es: seq<Option<E>>,
                                          k: K, i: nat)
    requires Lawful(p.keys) && Placed(p, geo, gs, es)
    requires Compared(p, geo, gs, es, k, i + 1) && MayStop(geo, gs, p.keys.hash(k), i)
    ensures Absent(p, es, k)
  {
    var home := geo.home(p.keys.hash(k));
    forall x | 0 <= x < |es| && es[x].Some? ensures !p.keys.eq(k, p.key(es[x].value)) {
      var g, n := x / N, x % N;
      if p.keys.eq(k, p.key(Elem(es, g, n).value)) {
        EqualElement(p, geo, gs, es, k, g, n);
        forall j: nat | j < i + 1 ensures geo.probe(home, j) != g {
          assert NoneMatches(p, gs, es, k, Probed(geo, p.keys.hash(k), j));
        }
        assert Unvisited(geo, home, g, i + 1);
        if i + 1 >= geo.groups {
          NothingUnvisited(geo, home, g, i + 1);
        }
      }
    }
  }

  /** Compares `k` with the elements of group `pos` whose reduced hash matches, lowest slot first. */
  method CompareMatches<K, E>(p: Policy<K, E>, a: Arrays<E>, k: K, pos: nat) returns (slot: Option<nat>)
    requires ArraysOk(p, a) && pos < a.groups.Length
    ensures slot.Some? ==> Located(p, a, k, (pos, slot.value))
    ensures slot.None? ==> NoneMatches(p, a.groups[..], a.elements[..], k, pos)
  {
    ghost var es, gs := a.elements[..], a.groups[..];
    var mask := Match(a.groups[pos], Reduced(p.keys.hash(k)));
    var i := 0;
    while i < |mask|
      invariant i <= |mask|
      invariant forall j :: 0 <= j < i && Elem(es, pos, mask[j]).Some? ==>
                              !p.keys.eq(k, p.key(Elem(es, pos, mask[j]).value))
    {
      var n := mask[i];
      MatchedSlotFilled(p, a.geo, gs, es, pos, n);
      if p.keys.eq(k, p.key(a.elements[N * pos + n].value)) {
        return Some(n);
      }
      i := i + 1;
    }
    slot := None;
  }

  lemma MatchedSlotFilled<K, E>(p: Policy<K, E>, geo: Geometry, gs: seq<Group>, es: seq<Option<E>>, g: nat, n: nat)
    requires Placed(p, geo, gs, es) && g < |gs| && n < N && gs[g].tags[n] >= 2
    ensures Elem(es, g, n).Some?
  {
    assert SlotOk(p, geo, gs, es, g, n);
  }

  /** A slot of the table holding a key equal to `k`. */
  ghost predicate Located<K, E>(p: Policy<K, E>, a: Arrays<E>, k: K, loc: (nat, nat))
    reads a.groups, a.elements
  {
    && loc.0 < a.groups.Length
    && loc.1 < N
    && N * loc.0 + loc.1 < a.elements.Length
    && a.elements[N * loc.0 + loc.1].Some?
    && p.keys.eq(k, p.key(a.elements[N * loc.0 + loc.1].value))
  }

  /** Looks into the group probed at step `i`: an equal key, or none so far, and whether none can follow. */
  method LookInto<K, E>(p: Policy<K, E>, a: Arrays<E>, k: K, hash: nat, pos: nat, ghost i: nat)
    returns (slot: Option<nat>, stop: bool)
    requires ArraysOk(p, a) && hash == p.keys.hash(k) < Pow2(WORD) && pos == Probed(a.geo, hash, i)
    requires Compared(p, a.geo, a.groups[..], a.elements[..], k, i)
    ensures slot.Some? ==> Located(p, a, k, (pos, slot.value))
    ensures slot.None? ==> Compared(p, a.geo, a.groups[..], a.elements[..], k, i + 1)
    ensures stop ==> MayStop(a.geo, a.groups[..], hash, i)
  {
    slot := CompareMatches(p, a, k, pos);
    if slot.None? {
      ComparedMore(p, a.geo, a.groups[..], a.elements[..], k, i);
    }
    stop := a.groups[pos].IsNotOverflowed(hash);
  }

  /** The probe loop of a lookup. */
  method ProbeFor<K, E>(p: Policy<K, E>, a: Arrays<E>, k: K) returns (loc: Option<(nat, nat)>, ghost last: nat)
    requires ArraysOk(p, a) && p.keys.hash(k) < Pow2(WORD)
    ensures loc.Some? ==> Located(p, a, k, loc.value)
    ensures loc.None? ==> Compared(p, a.geo, a.groups[..], a.elements[..], k, last + 1)
                          && MayStop(a.geo, a.groups[..], p.keys.hash(k), last)
  {
    var hash := p.keys.hash(k);
    var pos0 := a.geo.home(hash);
    FirstIsHome(a.geo, pos0);
    var pb := Prober(pos0, 0);
    var more := true;
    last := 0;
    while more
      invariant AtStep(a.geo, pb, pos0, pb.step)
      invariant if more then pb.step < a.geo.groups else pb.step == last + 1 >= a.geo.groups
      invariant Compared(p, a.geo, a.groups[..], a.elements[..], k, pb.step)
      decreases a.geo.groups - pb.step, more
    {
      var pos := pb.pos;
      last := pb.step;
      var slot, stop := LookInto(p, a, k, hash, pos, last);
      if slot.Some? {
        return Some((pos, slot.value)), last;
      }
      if stop {
        return None, last;
      }
      pb, more := Advance(a.geo, pb, pos0);
    }
    loc := None;
  }

  /** Looks `k` up from its home group; finds its slot exactly when an equal key is stored. */
  method FindIn<K(!new), E(!new)>(p: Policy<K, E>, a: Arrays<E>, k: K) returns (loc: Option<(nat, nat)>)
    requires Lawful(p.keys) && ArraysOk(p, a)
    ensures loc.Some? ==> Located(p, a, k, loc.value)
    ensures loc.None? ==> Absent(p, a.elements[..], k)
  {
    ghost var last;
    loc, last := ProbeFor(p, a, k);
    if loc.None? {
      ProbingComplete(p, a.geo, a.groups[..], a.elements[..], k, last);
    }
  }

  // ----- Insertion -----

  ghost predicate Fits(geo: Geometry, gs: seq<Group>) {
    Regular(geo) && |gs| == geo.groups && AllOk(gs)
  }

  ghost predicate AllOk(gs: seq<Group>) {
    forall g :: 0 <= g < |gs| ==> gs[g].Ok()
  }

  /** Metadata after the first `i` groups probed for `hash` were marked as overflowed. */
  ghost function Marked(geo: Geometry, gs: seq<Group>, hash: nat, i: nat): (r: seq<Group>)
    requires Fits(geo, gs)
    ensures |r| == |gs| && AllOk(r)
  {
    if i == 0 then gs
    else
      var m := Marked(geo, gs, hash, i - 1);
      var g := Probed(geo, hash, i - 1);
      m[g := m[g].MarkOverflow(hash)]
  }

  /** Marking changes no slot and clears no overflow bit. */
  lemma {:induction false} MarkedKeeps(geo: Geometry, gs: seq<Group>, hash: nat, i: nat)
    requires Fits(geo, gs)
    ensures forall g :: 0 <= g < |gs| ==> Marked(geo, gs, hash, i)[g].tags == gs[g].tags
    ensures Grows(Overs(gs), Overs(Marked(geo, gs, hash, i)))
  {
    if i > 0 {
      MarkedKeeps(geo, gs, hash, i - 1);
    }
  }

  lemma {:induction false} MarkedMarks(geo: Geometry, gs: seq<Group>, hash: nat, i: nat, j: nat)
    requires Fits(geo, gs) && j < i
    ensures OverBit(Overs(Marked(geo, gs, hash, i)), Probed(geo, hash, j), hash)
  {
    if j < i - 1 {
      MarkedMarks(geo, gs, hash, i - 1, j);
    }
  }

  /** None of the first `i` groups probed for `hash` has an available slot. */
  ghost predicate Full(geo: Geometry, gs: seq<Group>, hash: nat, i: nat)
    requires Fits(geo, gs)
  {
    forall j: nat :: j < i ==> Match(gs[Probed(geo, hash, j)], 0) == []
  }

  /** The slot an insertion of `hash` takes: the lowest available one of the first group that has any. */
  ghost predicate FirstAvailable(geo: Geometry, gs: seq<Group>, hash: nat, i: nat, n: nat)
    requires Fits(geo, gs)
  {
    var mask := Match(gs[Probed(geo, hash, i)], 0);
    Full(geo, gs, hash, i) && mask != [] && mask[0] == n
  }

  /** Metadata after inserting `hash`, found full for `i` groups, into slot `n` of the next. */
  ghost function WithInserted(geo: Geometry, gs: seq<Group>, hash: nat, i: nat, n: nat): (r: seq<Group>)
    requires Fits(geo, gs)
    requires n < N
    ensures |r| == |gs| && AllOk(r)
  {
    var m := Marked(geo, gs, hash, i);
    var g := Probed(geo, hash, i);
    m[g := m[g].Set(n, hash)]
  }

  lemma InsertedTags(geo: Geometry, gs: seq<Group>, hash: nat, i: nat, n: nat, g: nat, x: nat)
    requires Fits(geo, gs) && n < N && g < |gs| && x < N
    ensures WithInserted(geo, gs, hash, i, n)[g].tags[x]
         == if g == Probed(geo, hash, i) && x == n then Reduced(hash) else gs[g].tags[x]
  {
    MarkedKeeps(geo, gs, hash, i);
  }

  lemma InsertedGrows(geo: Geometry, gs: seq<Group>, hash: nat, i: nat, n: nat)
    requires Fits(geo, gs) && n < N
    ensures Grows(Overs(gs), Overs(WithInserted(geo, gs, hash, i, n)))
    ensures forall j: nat :: j < i ==>
              OverBit(Overs(WithInserted(geo, gs, hash, i, n)), Probed(geo, hash, j), hash)
  {
    MarkedKeeps(geo, gs, hash, i);
    var m := Marked(geo, gs, hash, i);
    assert Grows(Overs(m), Overs(WithInserted(geo, gs, hash, i, n)));
    forall j: nat | j < i
      ensures OverBit(Overs(WithInserted(geo, gs, hash, i, n)), Probed(geo, hash, j), hash)
    {
      MarkedMarks(geo, gs, hash, i, j);
    }
  }

  /** While some slot is available anywhere, a full group is not the last one probed. */
  lemma NotLastGroup(geo: Geometry, gs: seq<Group>, hash: nat, i: nat, g: nat, n: nat)
    requires Fits(geo, gs) && g < |gs| && n < N
    requires Full(geo, gs, hash, i) && gs[g].tags[n] == 0
    ensures i < geo.groups
  {
    assert n in Match(gs[g], 0);
    forall j: nat | j < i ensures geo.probe(geo.home(hash), j) != g {
      assert Match(gs[Probed(geo, hash, j)], 0) == [];
    }
    assert Unvisited(geo, geo.home(hash), g, i);
    if i >= geo.groups {
      NothingUnvisited(geo, geo.home(hash), g, i);
    }
  }

  lemma InsertedSlotOk<K, E>(p: Policy<K, E>, geo: Geometry, gs: seq<Group>, es: seq<Option<E>>, e: E, i: nat, n: nat,
                             fs: seq<Option<E>>, g: nat)
    requires Placed(p, geo, gs, es) && n < N
    requires geo.home(p.HashOf(e)) < geo.groups && g == Probed(geo, p.HashOf(e), i)
    requires |fs| == |es| && Elem(fs, g, n) == Some(e)
    ensures SlotOk(p, geo, WithInserted(geo, gs, p.HashOf(e), i, n), fs, g, n)
  {
    InsertedGrows(geo, gs, p.HashOf(e), i, n);
    InsertedTags(geo, gs, p.HashOf(e), i, n, g, n);
    BitsReach(geo, Overs(WithInserted(geo, gs, p.HashOf(e), i, n)), p.HashOf(e), i);
  }

  lemma OtherSlotOk<K, E>(p: Policy<K, E>, geo: Geometry, gs: seq<Group>, es: seq<Option<E>>, hash: nat, i: nat, n: nat,
                          fs: seq<Option<E>>, k: nat, x: nat)
    requires Placed(p, geo, gs, es) && n < N && k < |gs| && x < N
    requires k != Probed(geo, hash, i) || x != n
    requires |fs| == |es| && Elem(fs, k, x) == Elem(es, k, x)
    ensures SlotOk(p, geo, WithInserted(geo, gs, hash, i, n), fs, k, x)
  {
    assert SlotOk(p, geo, gs, es, k, x);
    InsertedTags(geo, gs, hash, i, n, k, x);
    if Elem(es, k, x).Some? {
      InsertedGrows(geo, gs, hash, i, n);
      ReachesGrows(geo, Overs(gs), Overs(WithInserted(geo, gs, hash, i, n)), p.HashOf(Elem(es, k, x).value), k);
    }
  }

  /** Insertion keeps every element, the new one included, where lookups reach it. */
  lemma InsertedPlaced<K, E>(p: Policy<K, E>, geo: Geometry, gs: seq<Group>, es: seq<Option<E>>, e: E, i: nat, n: nat)
    requires Placed(p, geo, gs, es)
    requires geo.home(p.HashOf(e)) < geo.groups
    requires FirstAvailable(geo, gs, p.HashOf(e), i, n)
    ensures var g := Probed(geo, p.HashOf(e), i);
            && n < N
            && N * g + n < |es|
            && es[N * g + n].None?
            && Placed(p, geo, WithInserted(geo, gs, p.HashOf(e), i, n), es[N * g + n := Some(e)])
  {
    var hash := p.HashOf(e);
    var g := Probed(geo, hash, i);
    assert SlotOk(p, geo, gs, es, g, n);
    var gs', fs := WithInserted(geo, gs, hash, i, n), es[N * g + n := Some(e)];
    assert Shape(geo, gs', fs);
    forall k, x | 0 <= k < |gs| && 0 <= x < N ensures SlotOk(p, geo, gs', fs, k, x) {
      if k == g && x == n {
        InsertedSlotOk(p, geo, gs, es, e, i, n, fs, g);
      } else {
        OtherSlotOk(p, geo, gs, es, hash, i, n, fs, k, x);
      }
    }
  }

  lemma InsertedSentinel(geo: Geometry, gs: seq<Group>, hash: nat, i: nat, n: nat)
    requires Fits(geo, gs)
    requires SentinelLast(gs) && n < N && FirstAvailable(geo, gs, hash, i, n)
    ensures SentinelLast(WithInserted(geo, gs, hash, i, n))
  {
    var r := WithInserted(geo, gs, hash, i, n);
    forall g, x | 0 <= g < |r| && 0 <= x < N
      ensures r[g].tags[x] == 1 <==> g == |r| - 1 && x == N - 1
    {
      InsertedTags(geo, gs, hash, i, n, g, x);
    }
  }

  /** Constructs `e` in slot `n` of group `pos`, the first available one, and sets its metadata. */
  method TakeSlot<K, E>(p: Policy<K, E>, a: Arrays<E>, pos: nat, n: nat, hash: nat, e: E,
                        ghost gs: seq<Group>, ghost i: nat)
    requires Placed(p, a.geo, gs, a.elements[..]) && a.backed && SentinelLast(gs)
    requires hash == p.HashOf(e) && a.geo.home(hash) < a.geo.groups
    requires pos == Probed(a.geo, hash, i) && n < N
    requires a.groups[..] == Marked(a.geo, gs, hash, i) && FirstAvailable(a.geo, gs, hash, i, n)
    modifies a.groups, a.elements
    ensures ArraysOk(p, a)
    ensures a.groups[..] == WithInserted(a.geo, gs, hash, i, n)
    ensures N * pos + n < a.elements.Length && old(a.elements[N * pos + n]) == None
    ensures a.elements[..] == old(a.elements[..])[N * pos + n := Some(e)]
  {
    ghost var es := a.elements[..];
    InsertedPlaced(p, a.geo, gs, es, e, i, n);
    InsertedSentinel(a.geo, gs, hash, i, n);
    a.elements[N * pos + n] := Some(e);
    a.groups[pos] := a.groups[pos].Set(n, hash);
    assert a.groups[..] == WithInserted(a.geo, gs, hash, i, n);
    assert a.elements[..] == es[N * pos + n := Some(e)];
  }

  lemma MarkedMore(geo: Geometry, gs: seq<Group>, hash: nat, i: nat, g: nat)
    requires Fits(geo, gs)
    requires g == Probed(geo, hash, i)
    ensures Marked(geo, gs, hash, i + 1)
         == Marked(geo, gs, hash, i)[g := Marked(geo, gs, hash, i)[g].MarkOverflow(hash)]
  {
  }

  ghost predicate IsMarked(geo: Geometry, gs: seq<Group>, hash: nat, i: nat, m: seq<Group>) {
    Fits(geo, gs) && m == Marked(geo, gs, hash, i)
  }

  /** Marks the group probed at step `i` as overflowed. */
  method MarkGroup(geo: Geometry, groups: array<Group>, pos: nat, hash: nat, ghost gs: seq<Group>, ghost i: nat)
    requires IsMarked(geo, gs, hash, i, groups[..]) && pos == Probed(geo, hash, i)
    modifies groups
    ensures IsMarked(geo, gs, hash, i + 1, groups[..])
  {
    MarkedMore(geo, gs, hash, i, pos);
    ghost var m := groups[..];
    assert m[pos].Ok();
    groups[pos] := groups[pos].MarkOverflow(hash);
    assert groups[..] == m[pos := m[pos].MarkOverflow(hash)];
  }

  lemma FullMore(geo: Geometry, gs: seq<Group>, hash: nat, i: nat, m: Group)
    requires Fits(geo, gs) && Full(geo, gs, hash, i)
    requires m == Marked(geo, gs, hash, i)[Probed(geo, hash, i)] && Match(m, 0) == []
    ensures Full(geo, gs, hash, i + 1)
  {
    MarkedKeeps(geo, gs, hash, i);
  }

  lemma FirstHere(geo: Geometry, gs: seq<Group>, hash: nat, i: nat, m: Group)
    requires Fits(geo, gs) && Full(geo, gs, hash, i)
    requires m == Marked(geo, gs, hash, i)[Probed(geo, hash, i)] && Match(m, 0) != []
    ensures FirstAvailable(geo, gs, hash, i, Match(m, 0)[0])
  {
    MarkedKeeps(geo, gs, hash, i);
  }

  /** Marks a full group and goes on to the next. */
  method MarkAndGoOn(geo: TableGeometry, groups: array<Group>, pb: Pow2QuadraticProber, pos0: nat, hash: nat,
                     ghost gs: seq<Group>, ghost i: nat, ghost fg: nat, ghost fn: nat)
    returns (pb': Pow2QuadraticProber)
    requires IsMarked(geo, gs, hash, i, groups[..]) && Full(geo, gs, hash, i) && pos0 == geo.home(hash)
    requires AtStep(geo, pb, pos0, i) && Match(groups[pb.pos], 0) == []
    requires fg < |gs| && fn < N && gs[fg].tags[fn] == 0
    modifies groups
    ensures IsMarked(geo, gs, hash, i + 1, groups[..]) && Full(geo, gs, hash, i + 1)
    ensures AtStep(geo, pb', pos0, i + 1) && i + 1 < geo.groups
  {
    FullMore(geo, gs, hash, i, groups[pb.pos]);
    NotLastGroup(geo, gs, hash, i + 1, fg, fn);
    MarkGroup(geo, groups, pb.pos, hash, gs, i);
    var more;
    pb', more := Advance(geo, pb, pos0);
  }

  /** The probe loop of an insertion: to the first group with an available slot, marking the full ones. */
  method ProbeForRoom(geo: TableGeometry, groups: array<Group>, pos0: nat, hash: nat, ghost fg: nat, ghost fn: nat)
    returns (pos: nat, ghost i: nat)
    requires Fits(geo, groups[..])
    requires pos0 == geo.home(hash) < geo.groups
    requires fg < groups.Length && fn < N && groups[fg].tags[fn] == 0
    modifies groups
    ensures pos == Probed(geo, hash, i) && IsMarked(geo, old(groups[..]), hash, i, groups[..])
    ensures Match(groups[pos], 0) != [] && Full(geo, old(groups[..]), hash, i)
  {
    ghost var gs := groups[..];
    FirstIsHome(geo, pos0);
    var pb := Prober(pos0, 0);
    i := 0;
    while Match(groups[pb.pos], 0) == []
      invariant AtStep(geo, pb, pos0, i) && i < geo.groups
      invariant IsMarked(geo, gs, hash, i, groups[..])
      invariant Full(geo, gs, hash, i)
      decreases geo.groups - i
    {
      pb := MarkAndGoOn(geo, groups, pb, pos0, hash, gs, i, fg, fn);
      i := i + 1;
    }
    pos := pb.pos;
  }

  /**
   Inserts `e`, whose key must be new, into the first available slot along its probe sequence,
   marking every full group on the way.
   */
  method NosizeUncheckedEmplaceAt<K, E>(p: Policy<K, E>, a: Arrays<E>, pos0: nat, hash: nat, e: E)
    returns (loc: (nat, nat), ghost i: nat)
    requires ArraysOk(p, a) && a.backed
    requires hash == p.HashOf(e) && pos0 == a.geo.home(hash) < a.geo.groups
    requires |Used(a.elements[..])| < CapacityOf(a)
    modifies a.groups, a.elements
    ensures ArraysOk(p, a)
    ensures loc.0 == Probed(a.geo, hash, i) && loc.1 < N
    ensures FirstAvailable(a.geo, old(a.groups[..]), hash, i, loc.1)
    ensures a.groups[..] == WithInserted(a.geo, old(a.groups[..]), hash, i, loc.1)
    ensures N * loc.0 + loc.1 < a.elements.Length && old(a.elements[N * loc.0 + loc.1]) == None
    ensures a.elements[..] == old(a.elements[..])[N * loc.0 + loc.1 := Some(e)]
  {
    ghost var gs := a.groups[..];
    ghost var fg, fn := AvailableSlot(p, a.geo, gs, a.elements[..]);
    var pos;
    pos, i := ProbeForRoom(a.geo, a.groups, pos0, hash, fg, fn);
    FirstHere(a.geo, gs, hash, i, a.groups[pos]);
    loc := (pos, Match(a.groups[pos], 0)[0]);
    TakeSlot(p, a, loc.0, loc.1, hash, e, gs, i);
  }

  // ----- Walking the elements -----

  /** The set bits of match_really_occupied: occupied slots from `n` on, without the sentinel of the last group. */
  function ReallyOccupied(tags: seq<nat>, last: bool, n: nat): (r: seq<nat>)
    requires n <= |tags| == N
    ensures forall i :: 0 <= i < |r| ==> n <= r[i] < N && tags[r[i]] != 0 && !(last && r[i] == N - 1)
    ensures forall x :: n <= x < N && tags[x] != 0 && !(last && x == N - 1) ==> x in r
    ensures forall i, j :: 0 <= i < j < |r| ==> r[i] < r[j]
    decreases N - n
  {
    if n == N then []
    else
      var rest := ReallyOccupied(tags, last, n + 1);
      if tags[n] != 0 && !(last && n == N - 1) then [n] + rest else rest
  }

  ghost predicate Ascending(s: seq<nat>) {
    forall i, j :: 0 <= i < j < |s| ==> s[i] < s[j]
  }

  /** `order` lists the slots below `bound` that hold elements. */
  ghost predicate Lists<E>(order: seq<nat>, es: seq<Option<E>>, bound: nat) {
    forall x: nat :: x in order <==> x < bound && x < |es| && es[x].Some?
  }

  lemma OccupiedHolds<K, E>(p: Policy<K, E>, a: Arrays<E>, g: nat, n: nat)
    requires ArraysOk(p, a) && a.backed && g < a.groups.Length && n < N
    ensures Listed(a.elements[..], N * g, ReallyOccupied(a.groups[g].tags, g == a.groups.Length - 1, 0), n)
  {
    assert SlotOk(p, a.geo, a.groups[..], a.elements[..], g, n);
    assert a.groups[..][g] == a.groups[g];
  }

  /** Visits every slot that holds an element exactly once, in ascending order, and never the sentinel. */
  method ForAllElements<K, E>(p: Policy<K, E>, a: Arrays<E>) returns (order: seq<nat>)
    requires ArraysOk(p, a)
    ensures Ascending(order) && Lists(order, a.elements[..], a.elements.Length)
  {
    order := [];
    if !a.backed {
      NoneUsed(a.elements[..]);
      return;
    }
    var g := 0;
    while g < a.groups.Length
      invariant g <= a.groups.Length
      invariant Ascending(order) && Lists(order, a.elements[..], N * g)
    {
      order := WalkGroup(p, a, g, order);
      g := g + 1;
    }
  }

  lemma NoneUsed<E>(es: seq<Option<E>>)
    requires Used(es) == {}
    ensures Lists([], es, |es|)
  {
    forall x: nat | x < |es| ensures es[x].None? {
      assert x !in Used(es);
    }
  }

  method WalkGroup<K, E>(p: Policy<K, E>, a: Arrays<E>, g: nat, order0: seq<nat>) returns (order: seq<nat>)
    requires ArraysOk(p, a) && a.backed && g < a.groups.Length
    requires Ascending(order0) && Lists(order0, a.elements[..], N * g)
    ensures Ascending(order) && Lists(order, a.elements[..], N * (g + 1))
  {
    var mask := ReallyOccupied(a.groups[g].tags, g == a.groups.Length - 1, 0);
    GroupHolds(p, a, g, mask);
    ListsMore(order0, a.elements[..], N * g, mask);
    var more := ShiftAll(mask, N * g);
    order := order0 + more;
  }

  function Shifted(s: seq<nat>, k: nat): seq<nat> {
    seq(|s|, i requires 0 <= i < |s| => s[i] + k)
  }

  /** The flat indices of the matched slots of one group. */
  method ShiftAll(mask: seq<nat>, base: nat) returns (r: seq<nat>)
    ensures r == Shifted(mask, base)
  {
    r := [];
    var i := 0;
    while i < |mask|
      invariant i <= |mask|
      invariant |r| == i && forall j :: 0 <= j < i ==> r[j] == mask[j] + base
    {
      r := r + [base + mask[i]];
      i := i + 1;
    }
  }

  /** Slot `n` after `base` holds an element exactly if the mask lists it. */
  ghost predicate Listed<E>(es: seq<Option<E>>, base: nat, mask: seq<nat>, n: nat) {
    base + n < |es| && (es[base + n].Some? <==> n in mask)
  }

  lemma ListedIsMask<E>(es: seq<Option<E>>, base: nat, mask: seq<nat>)
    requires Ascending(mask) && forall i :: 0 <= i < |mask| ==> mask[i] < N
    requires forall n: nat :: n < N ==> Listed(es, base, mask, n)
    ensures MaskOf(es, base, mask)
  {
    assert Listed(es, base, mask, N - 1);
    forall n: nat | n < N ensures n in mask <==> es[base + n].Some? {
      assert Listed(es, base, mask, n);
    }
  }

  lemma GroupHolds<K, E>(p: Policy<K, E>, a: Arrays<E>, g: nat, mask: seq<nat>)
    requires ArraysOk(p, a) && a.backed && g < a.groups.Length
    requires mask == ReallyOccupied(a.groups[g].tags, g == a.groups.Length - 1, 0)
    ensures MaskOf(a.elements[..], N * g, mask)
  {
    forall n: nat | n < N ensures Listed(a.elements[..], N * g, mask, n) {
      OccupiedHolds(p, a, g, n);
    }
    ListedIsMask(a.elements[..], N * g, mask);
  }

  /** `mask` lists the occupied ones of the N slots from `base`. */
  ghost predicate MaskOf<E>(es: seq<Option<E>>, base: nat, mask: seq<nat>) {
    && base + N <= |es|
    && Ascending(mask)
    && (forall i :: 0 <= i < |mask| ==> mask[i] < N)
    && forall n: nat :: n < N ==> (n in mask <==> es[base + n].Some?)
  }

  lemma ListsMore<E>(order: seq<nat>, es: seq<Option<E>>, base: nat, mask: seq<nat>)
    requires Ascending(order) && Lists(order, es, base) && MaskOf(es, base, mask)
    ensures Ascending(order + Shifted(mask, base)) && Lists(order + Shifted(mask, base), es, base + N)
  {
    var more := Shifted(mask, base);
    forall x: nat ensures x in more <==> base <= x < base + N && es[x].Some? {
      ShiftedMember(mask, base, x);
      if base <= x < base + N {
        assert (x - base) in mask <==> es[base + (x - base)].Some?;
      }
    }
    forall i, j | 0 <= i < j < |order + more| ensures (order + more)[i] < (order + more)[j] {
      if i < |order| <= j {
        assert order[i] in order && more[j - |order|] in more;
      }
    }
  }

  lemma ShiftedMember(mask: seq<nat>, base: nat, x: nat)
    ensures x in Shifted(mask, base) <==> x >= base && (x - base) in mask
  {
    var more := Shifted(mask, base);
    if x in more {
      var i :| 0 <= i < |more| && more[i] == x;
      assert mask[i] == x - base;
    }
    if x >= base && (x - base) in mask {
      var i :| 0 <= i < |mask| && mask[i] == x - base;
      assert more[i] == x;
    }
  }
}
