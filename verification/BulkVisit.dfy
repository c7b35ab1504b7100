/** Visiting many keys at once gives what visiting them one by one gives. */
module BulkVisit {
  import opened Prober
  import opened SizePolicy
  import opened Keys
  import opened Probing
  import opened TableLayout
  import opened TableCore
  import opened Wrappers

  const BULK_VISIT_SIZE := 16

  /** What a visitor leaves behind: the elements, which it may update, and those it was called with, in order. */
  datatype Visited<E> = Visited(elements: seq<Option<E>>, log: seq<E>)

  /** What a visitor does with an element may depend on all it saw before; the key stays. */
  ghost predicate KeepsKeys<K(!new), E(!new)>(p: Policy<K, E>, f: (seq<E>, E) -> E) {
    forall log, e :: p.key(f(log, e)) == p.key(e)
  }

  ghost predicate Holds<K, E>(p: Policy<K, E>, es: seq<Option<E>>, k: K, x: nat) {
    x < |es| && es[x].Some? && p.keys.eq(k, p.key(es[x].value))
  }

  /** A slot with a key equal to `k`; there is at most one when keys are distinct. */
  ghost function SlotOf<K, E>(p: Policy<K, E>, es: seq<Option<E>>, k: K): (r: Option<nat>)
    ensures match r case Some(x) => Holds(p, es, k, x) case None => Absent(p, es, k)
  {
    if x: nat :| Holds(p, es, k, x) then Some(x)
    else
      assert forall x: nat :: x < |es| && es[x].Some? ==> !p.keys.eq(k, p.key(es[x].value)) by {
        forall x: nat | x < |es| && es[x].Some? ensures !p.keys.eq(k, p.key(es[x].value)) {
          assert !Holds(p, es, k, x);
        }
      }
      None
  }

  /** The visitor is called on the element with an equal key, if there is one. */
  ghost function VisitOne<K, E>(p: Policy<K, E>, f: (seq<E>, E) -> E, v: Visited<E>, k: K): Visited<E> {
    match SlotOf(p, v.elements, k)
    case None => v
    case Some(x) =>
      var e := v.elements[x].value;
      Visited(v.elements[x := Some(f(v.log, e))], v.log + [e])
  }

  ghost function VisitEach<K, E>(p: Policy<K, E>, f: (seq<E>, E) -> E, v: Visited<E>, ks: seq<K>): Visited<E> {
    if ks == [] then v
    else VisitOne(p, f, VisitEach(p, f, v, ks[..|ks| - 1]), ks[|ks| - 1])
  }

  lemma {:induction false} VisitEachSplit<K, E>(p: Policy<K, E>, f: (seq<E>, E) -> E, v: Visited<E>,
                                                a: seq<K>, b: seq<K>)
    ensures VisitEach(p, f, v, a + b) == VisitEach(p, f, VisitEach(p, f, v, a), b)
  {
    if b == [] {
      assert a + b == a;
    } else {
      var c := b[..|b| - 1];
      assert (a + b)[..|a + b| - 1] == a + c;
      VisitEachSplit(p, f, v, a, c);
    }
  }

  /** The number of keys for which an equal key is stored. */
  ghost function Present<K, E>(p: Policy<K, E>, es: seq<Option<E>>, ks: seq<K>): nat {
    if ks == [] then 0
    else Present(p, es, ks[..|ks| - 1]) + if Absent(p, es, ks[|ks| - 1]) then 0 else 1
  }

  /** Visiting changes no key, so the calls made are as many as the keys present at the start. */
  lemma {:induction false} VisitsArePresentKeys<K(!new), E(!new)>(
    p: Policy<K, E>, f: (seq<E>, E) -> E, v: Visited<E>, ks: seq<K>)
    requires KeepsKeys(p, f)
    ensures SameKeys(p, v.elements, VisitEach(p, f, v, ks).elements)
    ensures |VisitEach(p, f, v, ks).log| == |v.log| + Present(p, v.elements, ks)
    ensures v.log <= VisitEach(p, f, v, ks).log
  {
    if ks != [] {
      var w := VisitEach(p, f, v, ks[..|ks| - 1]);
      VisitsArePresentKeys(p, f, v, ks[..|ks| - 1]);
      SameKeysSamePresence(p, v.elements, w.elements, ks[|ks| - 1]);
      HoldsNotAbsent(p, w.elements, ks[|ks| - 1]);
    }
  }

  lemma HoldsNotAbsent<K, E>(p: Policy<K, E>, es: seq<Option<E>>, k: K)
    ensures Absent(p, es, k) <==> SlotOf(p, es, k).None?
  {
  }

  ghost predicate SameKeys<K, E>(p: Policy<K, E>, a: seq<Option<E>>, b: seq<Option<E>>) {
    && |a| == |b|
    && forall x :: 0 <= x < |a| ==> a[x].Some? == b[x].Some? && (a[x].Some? ==> p.key(a[x].value) == p.key(b[x].value))
  }

  lemma SameKeysSamePresence<K, E>(p: Policy<K, E>, a: seq<Option<E>>, b: seq<Option<E>>, k: K)
    requires SameKeys(p, a, b)
    ensures Absent(p, a, k) <==> Absent(p, b, k)
  {
  }

  lemma SameKeysStillPlaced<K(!new), E(!new)>(
    p: Policy<K, E>, geo: Geometry, gs: seq<Group>, a: seq<Option<E>>, b: seq<Option<E>>)
    requires SameKeys(p, a, b) && Placed(p, geo, gs, a) && Distinct(p, a)
    ensures Placed(p, geo, gs, b) && Distinct(p, b) && Used(b) == Used(a)
  {
    forall g, n | 0 <= g < |gs| && 0 <= n < N ensures SlotOk(p, geo, gs, b, g, n) {
      assert SlotOk(p, geo, gs, a, g, n);
    }
  }

  // ----- The steps of a lookup with a mask -----

  ghost predicate Ready<K(!new), E(!new)>(p: Policy<K, E>, a: Arrays<E>)
    reads a.groups, a.elements
  {
    Lawful(p.keys) && ArraysOk(p, a) && Distinct(p, a.elements[..])
  }

  /** With distinct keys, a slot holding an equal key is the one `SlotOf` names. */
  lemma OnlySlot<K(!new), E(!new)>(p: Policy<K, E>, es: seq<Option<E>>, k: K, x: nat)
    requires Lawful(p.keys) && Distinct(p, es) && Holds(p, es, k, x)
    ensures SlotOf(p, es, k) == Some(x)
  {
    var y := SlotOf(p, es, k).value;
    assert p.keys.eq(p.key(es[x].value), k);
  }

  /** The visitor changes the element with the key it is called for, and nothing else; without one nothing happens. */
  lemma VisitOneSees<K(!new), E(!new)>(p: Policy<K, E>, f: (seq<E>, E) -> E, v: Visited<E>, k: K)
    requires Lawful(p.keys) && Distinct(p, v.elements)
    ensures var w := VisitOne(p, f, v, k);
            && |w.elements| == |v.elements|
            && (Absent(p, v.elements, k) ==> w == v)
            && (forall x: nat :: x < |v.elements| && !Holds(p, v.elements, k, x) ==> w.elements[x] == v.elements[x])
            && (forall x: nat :: Holds(p, v.elements, k, x) ==>
                  && w.elements[x] == Some(f(v.log, v.elements[x].value))
                  && w.log == v.log + [v.elements[x].value])
  {
    HoldsNotAbsent(p, v.elements, k);
    forall x: nat | Holds(p, v.elements, k, x) ensures SlotOf(p, v.elements, k) == Some(x) {
      OnlySlot(p, v.elements, k, x);
    }
  }

  lemma VisitKeepsDistinct<K(!new), E(!new)>(p: Policy<K, E>, f: (seq<E>, E) -> E, v: Visited<E>, ks: seq<K>)
    requires KeepsKeys(p, f) && Distinct(p, v.elements)
    ensures Distinct(p, VisitEach(p, f, v, ks).elements) && SameKeys(p, v.elements, VisitEach(p, f, v, ks).elements)
  {
    VisitsArePresentKeys(p, f, v, ks);
  }

  /** An element with none of the keys stays as it is. */
  lemma {:induction false} VisitLeavesOthers<K(!new), E(!new)>(
    p: Policy<K, E>, f: (seq<E>, E) -> E, v: Visited<E>, ks: seq<K>, x: nat)
    requires Lawful(p.keys) && KeepsKeys(p, f) && Distinct(p, v.elements) && x < |v.elements|
    requires forall i :: 0 <= i < |ks| ==> !Holds(p, v.elements, ks[i], x)
    ensures x < |VisitEach(p, f, v, ks).elements| && VisitEach(p, f, v, ks).elements[x] == v.elements[x]
  {
    if ks != [] {
      var n := |ks| - 1;
      VisitLeavesOthers(p, f, v, ks[..n], x);
      VisitKeepsDistinct(p, f, v, ks[..n]);
      assert !Holds(p, v.elements, ks[n], x);
      VisitOneSees(p, f, VisitEach(p, f, v, ks[..n]), ks[n]);
    }
  }

  lemma VisitEachSplits<K, E>(p: Policy<K, E>, f: (seq<E>, E) -> E, v: Visited<E>, ks: seq<K>, i: nat)
    requires i < |ks|
    ensures var b := VisitEach(p, f, v, ks[..i + 1]);
            b == VisitOne(p, f, VisitEach(p, f, v, ks[..i]), ks[i]) && VisitEach(p, f, v, ks) == VisitEach(p, f, b, ks[i + 1..])
  {
    assert ks[..i + 1][..i] == ks[..i];
    assert ks[..i + 1] + ks[i + 1..] == ks;
    VisitEachSplit(p, f, v, ks[..i + 1], ks[i + 1..]);
  }

  /** The element with the `i`-th key and none of the others ends as the visitor made it from the original. */
  lemma VisitorMakesElement<K(!new), E(!new)>(
    p: Policy<K, E>, f: (seq<E>, E) -> E, v: Visited<E>, ks: seq<K>, i: nat, x: nat)
    requires Lawful(p.keys) && KeepsKeys(p, f) && Distinct(p, v.elements)
    requires i < |ks| && Holds(p, v.elements, ks[i], x)
    requires forall j :: 0 <= j < |ks| && j != i ==> !Holds(p, v.elements, ks[j], x)
    ensures var seen, w := VisitEach(p, f, v, ks[..i]).log, VisitEach(p, f, v, ks);
            && x < |w.elements| && w.elements[x] == Some(f(seen, v.elements[x].value))
            && seen + [v.elements[x].value] <= w.log
  {
    var a, b := VisitEach(p, f, v, ks[..i]), VisitEach(p, f, v, ks[..i + 1]);
    VisitLeavesOthers(p, f, v, ks[..i], x);
    VisitKeepsDistinct(p, f, v, ks[..i]);
    VisitOneSees(p, f, a, ks[i]);
    VisitEachSplits(p, f, v, ks, i);
    VisitKeepsDistinct(p, f, v, ks[..i + 1]);
    VisitLeavesOthers(p, f, b, ks[i + 1..], x);
    VisitsArePresentKeys(p, f, b, ks[i + 1..]);
  }

  /** Only slots of `mask` may still turn out to hold a key equal to `k`. */
  ghost predicate NoneMatchesBut<K, E>(p: Policy<K, E>, gs: seq<Group>, es: seq<Option<E>>, k: K, g: nat,
                                       mask: seq<nat>)
    requires g < |gs| && gs[g].Ok() && N * g + N <= |es|
  {
    forall n: nat | n < N && gs[g].tags[n] == Reduced(p.keys.hash(k)) && n !in mask ::
      Elem(es, g, n).Some? ==> !p.keys.eq(k, p.key(Elem(es, g, n).value))
  }

  /** Compares `k` with the slots of a mask, lowest first. */
  method CompareMasked<K(!new), E(!new)>(p: Policy<K, E>, a: Arrays<E>, k: K, pos: nat, matched: seq<nat>)
    returns (slot: Option<nat>)
    requires Ready(p, a) && pos < a.groups.Length
    requires matched == Match(a.groups[pos], Reduced(p.keys.hash(k)))
    ensures slot.Some? ==> SlotOf(p, a.elements[..], k) == slot
    ensures slot.None? ==> NoneMatches(p, a.groups[..], a.elements[..], k, pos)
  {
    ghost var es, gs := a.elements[..], a.groups[..];
    var mask: seq<nat> := matched;
    while mask != []
      invariant forall i :: 0 <= i < |mask| ==> mask[i] < N && gs[pos].tags[mask[i]] == Reduced(p.keys.hash(k))
      invariant NoneMatchesBut(p, gs, es, k, pos, mask)
    {
      var n := mask[0];
      MatchedSlotFilled(p, a.geo, gs, es, pos, n);
      if a.groups[pos].tags[n] != 0 {
        if p.keys.eq(k, p.key(a.elements[N * pos + n].value)) {
          OnlySlot(p, es, k, N * pos + n);
          return Some(N * pos + n);
        }
      }
      mask := mask[1..];
    }
    slot := None;
  }

  /** Everything probed for `k` before the position of the prober is compared. */
  ghost predicate LooksAt<K, E>(p: Policy<K, E>, a: Arrays<E>, k: K, pos0: nat, pb: Pow2QuadraticProber)
    requires Shape(a.geo, a.groups[..], a.elements[..])
    reads a.groups, a.elements
  {
    && AtStep(a.geo, pb, pos0, pb.step) && pb.step < a.geo.groups
    && Compared(p, a.geo, a.groups[..], a.elements[..], k, pb.step)
  }

  /** One round of a single visit: the matches of a group, and the way to the next. */
  method LocateHere<K(!new), E(!new)>(p: Policy<K, E>, a: Arrays<E>, k: K, pos0: nat, hash: nat, pb0: Pow2QuadraticProber)
    returns (slot: Option<nat>, more: bool, pb: Pow2QuadraticProber)
    requires Ready(p, a) && hash == p.keys.hash(k) && pos0 == a.geo.home(hash) && LooksAt(p, a, k, pos0, pb0)
    ensures slot.Some? ==> slot == SlotOf(p, a.elements[..], k)
    ensures slot.None? && more ==> LooksAt(p, a, k, pos0, pb) && pb.step == pb0.step + 1
    ensures slot.None? && !more ==> SlotOf(p, a.elements[..], k) == None
  {
    more, pb := true, pb0;
    slot := CompareMasked(p, a, k, pb.pos, Match(a.groups[pb.pos], Reduced(hash)));
    if slot.None? {
      more, pb := NextGroup(p, a, k, hash, pos0, pb0);
    }
  }

  /** The probe loop of a single visit. */
  method Locate<K(!new), E(!new)>(p: Policy<K, E>, a: Arrays<E>, k: K, pos0: nat, hash: nat)
    returns (slot: Option<nat>)
    requires Ready(p, a) && hash == p.keys.hash(k) && pos0 == a.geo.home(hash)
    ensures slot == SlotOf(p, a.elements[..], k)
  {
    var pb := Prober(pos0, 0);
    FirstIsHome(a.geo, pos0);
    var more := true;
    slot := None;
    while slot.None? && more
      invariant slot.None? && more ==> LooksAt(p, a, k, pos0, pb)
      invariant slot.Some? || !more ==> slot == SlotOf(p, a.elements[..], k)
      decreases slot.None?, more, a.geo.groups - pb.step
    {
      slot, more, pb := LocateHere(p, a, k, pos0, hash, pb);
    }
  }

  /** One key, visited as `unprotected_internal_visit` does. */
  method InternalVisit<K(!new), E(!new)>(p: Policy<K, E>, a: Arrays<E>, f: (seq<E>, E) -> E, x: K,
                                         pos0: nat, hash: nat, log: seq<E>)
    returns (res: nat, log': seq<E>)
    requires Ready(p, a) && KeepsKeys(p, f)
    requires hash == p.keys.hash(x) && pos0 == a.geo.home(hash)
    modifies a.elements
    ensures Ready(p, a)
    ensures Visited(a.elements[..], log') == VisitOne(p, f, Visited(old(a.elements[..]), log), x)
    ensures res == |log'| - |log|
  {
    var slot := Locate(p, a, x, pos0, hash);
    if slot.None? {
      return 0, log;
    }
    log' := Call(p, a, f, slot.value, log);
    res := 1;
  }

  /** Calls the visitor on the element in slot `x`. */
  method Call<K(!new), E(!new)>(p: Policy<K, E>, a: Arrays<E>, f: (seq<E>, E) -> E, x: nat, log: seq<E>)
    returns (log': seq<E>)
    requires Ready(p, a) && KeepsKeys(p, f) && x < a.elements.Length && a.elements[x].Some?
    modifies a.elements
    ensures Ready(p, a)
    ensures a.elements[..] == old(a.elements[..])[x := Some(f(log, old(a.elements[x]).value))]
    ensures log' == log + [old(a.elements[x]).value]
  {
    ghost var es := a.elements[..];
    var e := a.elements[x].value;
    a.elements[x] := Some(f(log, e));
    SameKeysStillPlaced(p, a.geo, a.groups[..], es, a.elements[..]);
    log' := log + [e];
  }

  // ----- Bulk visit -----

  /** Goes from a group without further matches to the next one probed, unless none can follow. */
  method NextGroup<K(!new), E(!new)>(p: Policy<K, E>, a: Arrays<E>, k: K, hash: nat, pos0: nat,
                                     pb0: Pow2QuadraticProber)
    returns (more: bool, pb: Pow2QuadraticProber)
    requires Ready(p, a) && hash == p.keys.hash(k) && pos0 == a.geo.home(hash) && LooksAt(p, a, k, pos0, pb0)
    requires NoneMatches(p, a.groups[..], a.elements[..], k, pb0.pos)
    ensures more ==> LooksAt(p, a, k, pos0, pb) && pb.step == pb0.step + 1
    ensures !more ==> Absent(p, a.elements[..], k)
  {
    ghost var gs, es := a.groups[..], a.elements[..];
    ComparedMore(p, a.geo, gs, es, k, pb0.step);
    if a.groups[pb0.pos].IsNotOverflowed(hash) {
      ProbingComplete(p, a.geo, gs, es, k, pb0.step);
      return false, pb0;
    }
    pb, more := Advance(a.geo, pb0, pos0);
    if !more {
      ProbingComplete(p, a.geo, gs, es, k, pb0.step);
    }
  }

  /** After the mask of a group is used up: probes on until a group has a match; `found` is false if none will. */
  method NextMatch<K(!new), E(!new)>(p: Policy<K, E>, a: Arrays<E>, k: K, hash: nat, pos0: nat,
                                     pb0: Pow2QuadraticProber)
    returns (found: bool, pb: Pow2QuadraticProber, mask: seq<nat>)
    requires Ready(p, a) && hash == p.keys.hash(k) && pos0 == a.geo.home(hash) && LooksAt(p, a, k, pos0, pb0)
    requires NoneMatches(p, a.groups[..], a.elements[..], k, pb0.pos)
    ensures found ==> LooksAt(p, a, k, pos0, pb) && pb0.step < pb.step
                      && mask == Match(a.groups[pb.pos], Reduced(hash)) && mask != []
    ensures !found ==> Absent(p, a.elements[..], k)
  {
    found, pb := NextGroup(p, a, k, hash, pos0, pb0);
    mask := [];
    while found && mask == []
      invariant found ==> LooksAt(p, a, k, pos0, pb) && pb0.step < pb.step
      invariant mask == [] || (found && mask == Match(a.groups[pb.pos], Reduced(hash)))
      invariant !found ==> Absent(p, a.elements[..], k)
      decreases found, a.geo.groups - pb.step, mask == []
    {
      mask := Match(a.groups[pb.pos], Reduced(hash));
      if mask == [] {
        EmptyMask(p, a, k, pb.pos);
        found, pb := NextGroup(p, a, k, hash, pos0, pb);
      }
    }
  }

  lemma EmptyMask<K(!new), E(!new)>(p: Policy<K, E>, a: Arrays<E>, k: K, pos: nat)
    requires Ready(p, a) && pos < a.groups.Length
    requires Match(a.groups[pos], Reduced(p.keys.hash(k))) == []
    ensures NoneMatches(p, a.groups[..], a.elements[..], k, pos)
  {
    assert forall n: nat :: n < N && a.groups[pos].tags[n] == Reduced(p.keys.hash(k)) ==>
                              n in Match(a.groups[pos], Reduced(p.keys.hash(k)));
  }

  /** The loop of one key of a bulk visit, entered with the mask of the home group already computed. */
  method BulkProbe<K(!new), E(!new)>(p: Policy<K, E>, a: Arrays<E>, k: K, hash: nat, pos0: nat, mask0: seq<nat>)
    returns (slot: Option<nat>)
    requires Ready(p, a) && hash == p.keys.hash(k) && pos0 == a.geo.home(hash) && pos0 < a.groups.Length
    requires mask0 == Match(a.groups[pos0], Reduced(hash))
    ensures slot == SlotOf(p, a.elements[..], k)
  {
    FirstIsHome(a.geo, pos0);
    var pb, mask := Prober(pos0, 0), mask0;
    var found := true;
    while found
      invariant found ==> LooksAt(p, a, k, pos0, pb) && mask == Match(a.groups[pb.pos], Reduced(hash))
      invariant !found ==> Absent(p, a.elements[..], k)
      decreases if found then a.geo.groups - pb.step else 0
    {
      if mask != [] {
        slot := CompareMasked(p, a, k, pb.pos, mask);
        if slot.Some? { return; }
      } else {
        // only before the first comparison: straight to the overflow test
        EmptyMask(p, a, k, pb.pos);
      }
      found, pb, mask := NextMatch(p, a, k, hash, pos0, pb);
    }
    slot := None;
  }

  /** Hash and home group of each key, in reverse order as the loop fills them. */
  ghost predicate Hashed<K, E>(p: Policy<K, E>, geo: Geometry, keys: seq<K>, hs: seq<nat>, ps: seq<nat>, from: nat) {
    && |keys| <= |hs| == |ps|
    && forall i: nat :: from <= i < |keys| ==> HashedAt(p, geo, keys[|keys| - 1 - i], hs[i], ps[i])
  }

  ghost predicate HashedAt<K, E>(p: Policy<K, E>, geo: Geometry, k: K, h: nat, pos: nat)
  {
    h == p.keys.hash(k) && pos == geo.home(h) && pos < geo.groups
  }

  method Hash<K(!new), E(!new)>(p: Policy<K, E>, geo: Geometry, keys: seq<K>)
    returns (hashes: array<nat>, positions: array<nat>)
    requires Lawful(p.keys) && Regular(geo)
    requires |keys| < 2 * BULK_VISIT_SIZE
    ensures fresh(hashes) && fresh(positions)
    ensures Hashed(p, geo, keys, hashes[..], positions[..], 0)
    ensures hashes.Length == positions.Length == 2 * BULK_VISIT_SIZE - 1
  {
    hashes, positions := new nat[2 * BULK_VISIT_SIZE - 1], new nat[2 * BULK_VISIT_SIZE - 1];
    var i: nat, it: nat := |keys|, 0;
    while i > 0
      invariant i + it == |keys|
      invariant Hashed(p, geo, keys, hashes[..], positions[..], i)
    {
      i := i - 1;
      var hash := p.keys.hash(keys[it]);
      var pos := geo.home(hash);
      HashedMore(p, geo, keys, hashes[..], positions[..], i, hash, pos);
      label Before:
      hashes[i], positions[i] := hash, pos;
      assert hashes[..] == old@Before(hashes[..])[i := hash];
      assert positions[..] == old@Before(positions[..])[i := pos];
      it := it + 1;
    }
  }

  lemma HashedMore<K, E>(p: Policy<K, E>, geo: Geometry, keys: seq<K>, hs: seq<nat>, ps: seq<nat>, i: nat,
                         h: nat, pos: nat)
    requires i < |keys| && Hashed(p, geo, keys, hs, ps, i + 1)
    requires HashedAt(p, geo, keys[|keys| - 1 - i], h, pos)
    ensures Hashed(p, geo, keys, hs[i := h], ps[i := pos], i)
  {
  }

  ghost predicate Masked(gs: seq<Group>, m: nat, hs: seq<nat>, ps: seq<nat>, ms: seq<seq<nat>>, from: nat) {
    && m <= |hs| == |ps| == |ms|
    && forall i: nat :: from <= i < m ==> ps[i] < |gs| && ms[i] == Match(gs[ps[i]], Reduced(hs[i]))
  }

  method ComputeMasks(groups: array<Group>, m: nat, hashes: array<nat>, positions: array<nat>)
    returns (masks: array<seq<nat>>)
    requires m <= hashes.Length == positions.Length
    requires forall i :: 0 <= i < m ==> positions[i] < groups.Length
    ensures fresh(masks) && Masked(groups[..], m, hashes[..], positions[..], masks[..], 0)
  {
    masks := new seq<nat>[hashes.Length];
    var i: nat := m;
    while i > 0
      invariant i <= m && Masked(groups[..], m, hashes[..], positions[..], masks[..], i)
    {
      i := i - 1;
      masks[i] := Match(groups[positions[i]], Reduced(hashes[i]));
    }
  }

  /** At most 31 keys: everything is hashed and matched first, then the keys are visited. */
  method UnprotectedBulkVisit<K(!new), E(!new)>(p: Policy<K, E>, a: Arrays<E>, f: (seq<E>, E) -> E,
                                                keys: seq<K>, log: seq<E>)
    returns (res: nat, log': seq<E>)
    requires Ready(p, a) && KeepsKeys(p, f) && |keys| < 2 * BULK_VISIT_SIZE
    modifies a.elements
    ensures Ready(p, a)
    ensures Visited(a.elements[..], log') == VisitEach(p, f, Visited(old(a.elements[..]), log), keys)
    ensures res == |log'| - |log|
  {
    var hashes, positions := Hash(p, a.geo, keys);
    assert forall i :: 0 <= i < |keys| ==> positions[..][i] < a.groups.Length;
    var masks := ComputeMasks(a.groups, |keys|, hashes, positions);
    ghost var hs, ps, ms, gs := hashes[..], positions[..], masks[..], a.groups[..];
    ghost var v := Visited(a.elements[..], log);
    res, log' := 0, log;
    var i: nat, it: nat := |keys|, 0;
    while i > 0
      invariant i + it == |keys|
      invariant Ready(p, a) && hashes[..] == hs && positions[..] == ps && masks[..] == ms
      invariant Visited(a.elements[..], log') == VisitEach(p, f, v, keys[..it])
      invariant res == |log'| - |log|
    {
      i := i - 1;
      assert keys[..it + 1][..it] == keys[..it];
      assert HashedAt(p, a.geo, keys[it], hs[i], ps[i]);
      var slot := BulkProbe(p, a, keys[it], hashes[i], positions[i], masks[i]);
      if slot.Some? {
        log' := Call(p, a, f, slot.value, log');
        res := res + 1;
      }
      it := it + 1;
    }
    assert keys[..it] == keys;
  }

  /** Any number of keys, in chunks of 16, the last of up to 31. */
  method BulkVisitImpl<K(!new), E(!new)>(p: Policy<K, E>, a: Arrays<E>, f: (seq<E>, E) -> E, keys: seq<K>)
    returns (res: nat, log: seq<E>)
    requires Ready(p, a) && KeepsKeys(p, f)
    modifies a.elements
    ensures Ready(p, a)
    ensures Visited(a.elements[..], log) == VisitEach(p, f, Visited(old(a.elements[..]), []), keys)
    ensures res == |log| == Present(p, old(a.elements[..]), keys)
  {
    ghost var v := Visited(a.elements[..], []);
    res, log := 0, [];
    var n, first := |keys|, 0;
    while n > 0
      invariant 0 <= n <= |keys| && first == |keys| - n
      invariant Ready(p, a)
      invariant Visited(a.elements[..], log) == VisitEach(p, f, v, keys[..first])
      invariant res == |log|
    {
      var m := if n < 2 * BULK_VISIT_SIZE then n else BULK_VISIT_SIZE;
      var more;
      more, log := UnprotectedBulkVisit(p, a, f, keys[first..first + m], log);
      res := res + more;
      VisitEachSplit(p, f, v, keys[..first], keys[first..first + m]);
      assert keys[..first] + keys[first..first + m] == keys[..first + m];
      n := n - m;
      first := first + m;
    }
    assert keys[..first] == keys;
    VisitsArePresentKeys(p, f, v, keys);
  }

  /** Visiting the keys one by one: the same elements, calls, order and count. */
  method VisitKeysInTurn<K(!new), E(!new)>(p: Policy<K, E>, a: Arrays<E>, f: (seq<E>, E) -> E, keys: seq<K>)
    returns (res: nat, log: seq<E>)
    requires Ready(p, a) && KeepsKeys(p, f)
    modifies a.elements
    ensures Ready(p, a)
    ensures Visited(a.elements[..], log) == VisitEach(p, f, Visited(old(a.elements[..]), []), keys)
    ensures res == |log| == Present(p, old(a.elements[..]), keys)
  {
    ghost var v := Visited(a.elements[..], []);
    res, log := 0, [];
    var i := 0;
    while i < |keys|
      invariant i <= |keys|
      invariant Ready(p, a)
      invariant Visited(a.elements[..], log) == VisitEach(p, f, v, keys[..i])
      invariant res == |log|
    {
      assert keys[..i + 1][..i] == keys[..i];
      var hash := p.keys.hash(keys[i]);
      var one;
      one, log := InternalVisit(p, a, f, keys[i], a.geo.home(hash), hash, log);
      res := res + one;
      i := i + 1;
    }
    assert keys[..i] == keys;
    VisitsArePresentKeys(p, f, v, keys);
  }
}
