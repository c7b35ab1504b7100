/** The table object: counters and arrays updated in place, refining a set of elements with distinct keys. */
module HashTable {
  import opened Prober
  import opened SizePolicy
  import opened Keys
  import opened Probing
  import opened TableLayout
  import opened TableCore
  import opened Wrappers

  /** No element of `s` has a key equal to `k`. */
  ghost predicate NoEqual<K, E>(p: Policy<K, E>, s: set<E>, k: K) {
    forall e :: e in s ==> !p.keys.eq(k, p.key(e))
  }

  /** No element of `a` has a key equal to that of an element of `b`. */
  ghost predicate Apart<K, E>(p: Policy<K, E>, a: set<E>, b: set<E>) {
    forall x, y :: x in a && y in b ==> !p.keys.eq(p.key(x), p.key(y))
  }

  lemma OneApart<K, E>(p: Policy<K, E>, e: E, s: set<E>)
    requires NoEqual(p, s, p.key(e))
    ensures Apart(p, {e}, s)
  {
  }

  lemma AbsentNoEqual<K, E>(p: Policy<K, E>, es: seq<Option<E>>, k: K)
    ensures Absent(p, es, k) <==> NoEqual(p, Contents(es), k)
  {
    if Absent(p, es, k) {
      forall e | e in Contents(es) ensures !p.keys.eq(k, p.key(e)) {
        var x :| 0 <= x < |es| && es[x].Some? && es[x].value == e;
      }
    }
    if NoEqual(p, Contents(es), k) {
      forall x | 0 <= x < |es| && es[x].Some? ensures !p.keys.eq(k, p.key(es[x].value)) {
        assert es[x].value in Contents(es);
      }
    }
  }

  /** Arrays with a single element in them. */
  ghost predicate HoldsOne<K(!new), E(!new)>(p: Policy<K, E>, a: Arrays<E>)
    reads a.groups, a.elements
  {
    ArraysOk(p, a) && Distinct(p, a.elements[..]) && |Used(a.elements[..])| == 1
  }

  /** Filling an empty slot with an element of a new key keeps keys distinct. */
  lemma DistinctInsert<K(!new), E(!new)>(p: Policy<K, E>, es: seq<Option<E>>, x: nat, e: E)
    requires Lawful(p.keys) && x < |es| && Distinct(p, es) && es[x].None? && Absent(p, es, p.key(e))
    ensures Distinct(p, es[x := Some(e)])
  {
  }

  lemma DistinctRemove<K, E>(p: Policy<K, E>, es: seq<Option<E>>, x: nat)
    requires x < |es| && Distinct(p, es)
    ensures Distinct(p, es[x := None])
  {
  }

  datatype Op<K, E> = Emplace(e: E) | Erase(k: K) | Clear | Rehash(n: nat) | Reserve(n: nat)

  /** What an operation makes of a set of elements with distinct keys. */
  ghost function Specified1<K, E>(p: Policy<K, E>, s: set<E>, op: Op<K, E>): set<E> {
    match op
    case Emplace(e) => if NoEqual(p, s, p.key(e)) then s + {e} else s
    case Erase(k) => Without(p, s, k)
    case Clear => {}
    case Rehash(_) => s
    case Reserve(_) => s
  }

  ghost function Specified<K, E>(p: Policy<K, E>, s: set<E>, ops: seq<Op<K, E>>): set<E> {
    if ops == [] then s else Specified1(p, Specified(p, s, ops[..|ops| - 1]), ops[|ops| - 1])
  }

  /** Keys being distinct, there are as many elements as used slots. */
  lemma {:induction false} ContentsSize<K(!new), E(!new)>(p: Policy<K, E>, es: seq<Option<E>>)
    requires Lawful(p.keys) && Distinct(p, es)
    ensures |Contents(es)| == |Used(es)|
  {
    if es == [] {
      assert Used(es) == {} && Contents(es) == {};
    } else {
      var n := |es| - 1;
      ContentsSize(p, es[..n]);
      LastCounts(p, es);
      LastUsed(es);
    }
  }

  lemma LastUsed<E>(es: seq<Option<E>>)
    requires es != []
    ensures |Used(es)| == |Used(es[..|es| - 1])| + if es[|es| - 1].Some? then 1 else 0
  {
    var n := |es| - 1;
    assert Used(es) == Used(es[..n]) + if es[n].Some? then {n} else {};
  }

  lemma LastCounts<K(!new), E(!new)>(p: Policy<K, E>, es: seq<Option<E>>)
    requires Lawful(p.keys) && Distinct(p, es) && es != []
    ensures |Contents(es)| == |Contents(es[..|es| - 1])| + if es[|es| - 1].Some? then 1 else 0
  {
    LastElement(es);
    if es[|es| - 1].Some? {
      LastIsNew(p, es);
    }
  }

  lemma LastIsNew<K(!new), E(!new)>(p: Policy<K, E>, es: seq<Option<E>>)
    requires Lawful(p.keys) && Distinct(p, es) && es != [] && es[|es| - 1].Some?
    ensures es[|es| - 1].value !in Contents(es[..|es| - 1])
  {
    var n := |es| - 1;
    forall x | 0 <= x < n && es[x].Some? ensures es[x].value != es[n].value {
      assert !p.keys.eq(p.key(es[x].value), p.key(es[n].value));
    }
  }

  lemma LastElement<E>(es: seq<Option<E>>)
    requires es != []
    ensures var n := |es| - 1;
            Contents(es) == Contents(es[..n]) + if es[n].Some? then {es[n].value} else {}
  {
    var n := |es| - 1;
    forall e | e in Contents(es[..n]) ensures e in Contents(es) {
      var x :| 0 <= x < n && es[..n][x].Some? && es[..n][x].value == e;
      assert es[x].value == e;
    }
    forall e | e in Contents(es) && (es[n].None? || e != es[n].value) ensures e in Contents(es[..n]) {
      var x :| 0 <= x < |es| && es[x].Some? && es[x].value == e;
      assert es[..n][x].value == e;
    }
    if es[n].Some? {
      assert es[n].value in Contents(es);
    }
  }

  class Table<K(!new), E(!new)> {
    const p: Policy<K, E>
    var arrays: Arrays<E>
    var ml: nat
    var size: nat

    ghost predicate Valid()
      reads this, arrays.groups, arrays.elements
    {
      && Lawful(p.keys)
      && ArraysOk(p, arrays)
      && Distinct(p, arrays.elements[..])
      && size == |Used(arrays.elements[..])|
      && size <= ml <= CapacityOf(arrays)
    }

    ghost function Elements(): set<E>
      reads this, arrays.elements
    {
      Contents(arrays.elements[..])
    }

    function Capacity(): nat
      requires arrays.geo.groups > 0
      reads this
    {
      CapacityOf(arrays)
    }

    function InitialMaxLoad(): nat
      requires arrays.geo.groups > 0
      reads this
    {
      MaxLoad(Capacity())
    }

    constructor (p: Policy<K, E>, n: nat)
      requires Lawful(p.keys) && n < Pow2(WORD)
      ensures Valid() && Elements() == {} && this.p == p
      ensures Capacity() == (if n > 0 then CapacityFor(n) else 0) && ml == MaxLoad(Capacity())
      ensures fresh(arrays.groups) && fresh(arrays.elements)
    {
      var a := NewArrays(p, n);
      this.p := p;
      arrays := a;
      ml := MaxLoad(CapacityOf(a));
      size := 0;
    }

    /** Finds the slot of an equal key exactly when there is one. */
    method Find(k: K) returns (loc: Option<(nat, nat)>)
      requires Valid()
      ensures loc.Some? ==> Located(p, arrays, k, loc.value)
                            && arrays.elements[N * loc.value.0 + loc.value.1].value in Elements()
      ensures loc.None? <==> NoEqual(p, Elements(), k)
    {
      loc := FindIn(p, arrays, k);
      AbsentNoEqual(p, arrays.elements[..], k);
      if loc.Some? {
        assert arrays.elements[..][N * loc.value.0 + loc.value.1].value in Elements();
      }
    }

    /** Adds `e`, whose key must be new, while the load allows it. */
    method UncheckedEmplaceAt(pos0: nat, hash: nat, e: E)
      requires Valid() && NoEqual(p, Elements(), p.key(e)) && size < ml
      requires hash == p.HashOf(e) && pos0 == arrays.geo.home(hash)
      modifies this, arrays.groups, arrays.elements
      ensures Valid() && arrays == old(arrays)
      ensures Elements() == old(Elements()) + {e} && size == old(size) + 1 && ml == old(ml)
    {
      ghost var es := arrays.elements[..];
      AbsentNoEqual(p, es, p.key(e));
      var loc;
      ghost var i;
      loc, i := NosizeUncheckedEmplaceAt(p, arrays, pos0, hash, e);
      UsedInsert(es, N * loc.0 + loc.1, Some(e));
      DistinctInsert(p, es, N * loc.0 + loc.1, e);
      size := size + 1;
    }

    /** Destroys an element and recovers its slot, lowering the load if the slot may have caused overflow. */
    method EraseAt(g: nat, n: nat)
      requires Valid() && g < arrays.groups.Length && n < N
      requires N * g + n < arrays.elements.Length && arrays.elements[N * g + n].Some?
      modifies this, arrays.groups, arrays.elements
      ensures Valid() && arrays == old(arrays)
      ensures Elements() == old(Elements()) - {old(arrays.elements[N * g + n].value)}
      ensures size == old(size) - 1
      ensures ml == old(ml) - if old(arrays.groups[g].over[p.HashOf(arrays.elements[N * g + n].value) % 8]) then 1 else 0
    {
      ghost var es, gs := arrays.elements[..], arrays.groups[..];
      var x := N * g + n;
      UsedRemove(es, x);
      ContentsRemove(p, es, x);
      DistinctRemove(p, es, x);
      ErasedPlaced(p, arrays.geo, gs, es, g, n);
      var pg := arrays.groups[g];
      arrays.elements[x] := None;
      if !pg.IsNotOverflowed(pg.tags[n]) {
        ml := ml - 1;
      }
      arrays.groups[g] := pg.Reset(n);
      size := size - 1;
      assert arrays.elements[..] == es[x := None] && arrays.groups[..] == gs[g := gs[g].Reset(n)];
    }

    /**
     Moves every element to `na`, which may already hold others with different keys, each exactly
     once, and adopts those arrays.
     */
    method UncheckedRehash(na: Arrays<E>)
      requires Valid()
      requires na.groups != arrays.groups && na.elements != arrays.elements
      requires ArraysOk(p, na) && Distinct(p, na.elements[..])
      requires |Used(na.elements[..])| + size <= CapacityOf(na)
      requires Apart(p, Contents(na.elements[..]), Elements())
      modifies this, arrays.groups, arrays.elements, na.groups, na.elements
      ensures arrays == na && ArraysOk(p, arrays) && Distinct(p, arrays.elements[..])
      ensures Elements() == old(Contents(na.elements[..])) + old(Elements())
      ensures |Used(arrays.elements[..])| == old(|Used(na.elements[..])|) + old(size)
      ensures size == old(size) && ml == MaxLoad(CapacityOf(na))
    {
      ghost var es := arrays.elements[..];
      ghost var base, count := Contents(na.elements[..]), |Used(na.elements[..])|;
      var order := ForAllElements(p, arrays);
      ListSize(order, es);
      MovedAll(es, order);
      var i := 0;
      while i < |order|
        invariant i <= |order|
        invariant arrays == old(arrays) && size == old(size) && arrays.elements.Length == |es|
        invariant forall j :: i <= j < |order| ==> order[j] < |es| && arrays.elements[order[j]] == es[order[j]]
        invariant ArraysOk(p, na) && Distinct(p, na.elements[..])
        invariant |Used(na.elements[..])| == count + i
        invariant Contents(na.elements[..]) == base + Moved(es, order, i)
      {
        var x := order[i];
        var e := arrays.elements[x].value;
        ghost var ns := na.elements[..];
        MovedApart(p, es, order, i, base);
        AbsentNoEqual(p, ns, p.key(e));
        TransferElement(na, e);
        arrays.elements[x] := None;  // the source slot is destroyed, its metadata no longer read
        i := i + 1;
      }
      arrays := na;
      ml := InitialMaxLoad();
    }

    /** Empties the table in place, overflow bits included. */
    method Clear()
      requires Valid()
      modifies this, arrays.groups, arrays.elements
      ensures Valid() && arrays == old(arrays)
      ensures Elements() == {} && size == 0 && ml == MaxLoad(Capacity())
    {
      if arrays.backed {
        ClearGroups();
        arrays.groups[arrays.groups.Length - 1] := EmptyGroup(true);
        ml := InitialMaxLoad();
        size := 0;
      }
      EmptyTable(p, arrays.geo, arrays.groups[..], arrays.elements[..], arrays.backed);
    }

    /** Destroys all elements and wipes the metadata of all groups. */
    method ClearGroups()
      requires arrays.elements.Length == N * arrays.groups.Length
      modifies arrays.groups, arrays.elements
      ensures forall k :: 0 <= k < arrays.groups.Length ==> arrays.groups[k] == EmptyGroup(false)
      ensures forall x :: 0 <= x < arrays.elements.Length ==> arrays.elements[x].None?
    {
      var g := 0;
      while g < arrays.groups.Length
        invariant g <= arrays.groups.Length
        invariant forall k :: 0 <= k < g ==> arrays.groups[k] == EmptyGroup(false)
        invariant forall x :: 0 <= x < N * g ==> arrays.elements[x].None?
      {
        ClearElements(g);
        arrays.groups[g] := EmptyGroup(false);
        g := g + 1;
      }
    }

    /** Destroys the elements of group `g`. */
    method ClearElements(g: nat)
      requires g < arrays.groups.Length && arrays.elements.Length == N * arrays.groups.Length
      modifies arrays.elements
      ensures forall x :: 0 <= x < arrays.elements.Length ==>
                            arrays.elements[x] == if N * g <= x < N * g + N then None else old(arrays.elements[x])
    {
      var n := 0;
      while n < N
        invariant n <= N
        invariant forall x :: 0 <= x < arrays.elements.Length ==>
                                arrays.elements[x] == if N * g <= x < N * g + n then None else old(arrays.elements[x])
      {
        arrays.elements[N * g + n] := None;
        n := n + 1;
      }
    }

    method UncheckedRehashTo(n: nat)
      requires Valid() && n < Pow2(WORD)
      requires size <= MaxLoad(if n > 0 then CapacityFor(n) else 0)
      modifies this, arrays.groups, arrays.elements
      ensures Valid() && fresh(arrays.groups) && fresh(arrays.elements)
      ensures Elements() == old(Elements()) && size == old(size)
      ensures Capacity() == (if n > 0 then CapacityFor(n) else 0) && ml == MaxLoad(Capacity())
    {
      var na := NewArrays(p, n);
      MaxLoadWithinCapacity(CapacityOf(na));
      UncheckedRehash(na);
    }

    /** Makes the capacity the least permissible one for `n` elements or, if larger, for the current ones. */
    method Rehash(n0: nat)
      requires Valid()
      requires CapacityFor(n0) < Pow2(WORD) && CapacityFor(CeilByLoadFactor(size)) < Pow2(WORD)
      modifies this, arrays.groups, arrays.elements
      ensures Valid()
      ensures arrays == old(arrays) || (fresh(arrays.groups) && fresh(arrays.elements))
      ensures Elements() == old(Elements()) && size == old(size)
      ensures var n := if CeilByLoadFactor(size) > n0 then CeilByLoadFactor(size) else n0;
              Capacity() == (if n > 0 then CapacityFor(n) else 0) >= n0
      ensures if Capacity() == old(Capacity()) then arrays == old(arrays) && ml == old(ml) else ml == MaxLoad(Capacity())
    {
      var n := n0;
      var m := CeilByLoadFactor(size);
      if m > n {
        n := m;
      }
      ghost var wanted := n;
      if n > 0 {
        CapacitySuffices(n);
        CapacityIdempotent(n);
        n := CapacityFor(n);
        RehashKeepsSizeWithinLoad(size, n);
      }
      if n != Capacity() {
        UncheckedRehashTo(n);
      }
    }

    /** Makes room for `n` elements in all: that many will be accepted without growing. */
    method Reserve(n: nat)
      requires Valid()
      requires CapacityFor(CeilByLoadFactor(n)) < Pow2(WORD) && CapacityFor(CeilByLoadFactor(size)) < Pow2(WORD)
      modifies this, arrays.groups, arrays.elements
      ensures Valid()
      ensures arrays == old(arrays) || (fresh(arrays.groups) && fresh(arrays.elements))
      ensures Elements() == old(Elements()) && size == old(size)
      ensures MaxLoad(Capacity()) >= n
      ensures var m := CeilByLoadFactor(if size > n then size else n);
              Capacity() == if m > 0 then CapacityFor(m) else 0
    {
      Rehash(CeilByLoadFactor(n));
      if n > 0 {
        CapacitySuffices(CeilByLoadFactor(if size > n then size else n));
      }
    }

    /** Grows a table that has reached its maximum load. */
    method RehashIfFull()
      requires Valid() && GrowthRequest(size) < Pow2(WORD)
      modifies this, arrays.groups, arrays.elements
      ensures Valid() && size < ml
      ensures arrays == old(arrays) || (fresh(arrays.groups) && fresh(arrays.elements))
      ensures Elements() == old(Elements()) && size == old(size)
      ensures if old(size < ml) then arrays == old(arrays) && ml == old(ml)
              else Capacity() == CapacityFor(GrowthRequest(size)) && ml == MaxLoad(Capacity())
    {
      if size == ml {
        GrowthMakesRoom(size);
        UncheckedRehashTo(GrowthRequest(size));
      }
    }

    /** Larger arrays that hold `e` alone. */
    method GrownWith(e: E) returns (na: Arrays<E>)
      requires Valid() && GrowthRequest(size) < Pow2(WORD)
      ensures fresh(na.groups) && fresh(na.elements) && HoldsOne(p, na)
      ensures Contents(na.elements[..]) == {e}
      ensures size < MaxLoad(CapacityOf(na)) && CapacityOf(na) == CapacityFor(GrowthRequest(size))
    {
      na := NewArrays(p, GrowthRequest(size));
      GrowthMakesRoom(size);
      MaxLoadWithinCapacity(CapacityOf(na));
      AbsentNoEqual(p, na.elements[..], p.key(e));
      TransferElement(na, e);
    }

    /** Inserts `e` into larger arrays first, then moves the other elements there. */
    method UncheckedEmplaceWithRehash(e: E)
      requires Valid() && NoEqual(p, Elements(), p.key(e)) && GrowthRequest(size) < Pow2(WORD)
      modifies this, arrays.groups, arrays.elements
      ensures Valid() && fresh(arrays.groups) && fresh(arrays.elements)
      ensures Elements() == old(Elements()) + {e} && size == old(size) + 1
      ensures Capacity() == CapacityFor(GrowthRequest(old(size))) && ml == MaxLoad(Capacity())
    {
      var na := GrownWith(e);
      RehashOnto(na, e);
    }

    /** Moves everything on top of the one element of `na`, and counts that too. */
    method RehashOnto(na: Arrays<E>, e: E)
      requires Valid()
      requires na.groups != arrays.groups && na.elements != arrays.elements
      requires HoldsOne(p, na) && size < MaxLoad(CapacityOf(na))
      requires Contents(na.elements[..]) == {e} && NoEqual(p, Elements(), p.key(e))
      modifies this, arrays.groups, arrays.elements, na.groups, na.elements
      ensures Valid() && arrays == na && ml == MaxLoad(CapacityOf(na))
      ensures Elements() == old(Elements()) + {e} && size == old(size) + 1
    {
      OneApart(p, e, Elements());
      MaxLoadWithinCapacity(CapacityOf(na));
      UncheckedRehash(na);
      size := size + 1;
    }

    /** Inserts `e` unless an equal key is stored. */
    method Emplace(e: E) returns (inserted: bool)
      requires Valid() && GrowthRequest(size) < Pow2(WORD)
      modifies this, arrays.groups, arrays.elements
      ensures Valid()
      ensures arrays == old(arrays) || (fresh(arrays.groups) && fresh(arrays.elements))
      ensures inserted <==> NoEqual(p, old(Elements()), p.key(e))
      ensures Elements() == if inserted then old(Elements()) + {e} else old(Elements())
      ensures size == old(size) + if inserted then 1 else 0
      ensures !inserted || old(size < ml) ==> arrays == old(arrays) && ml == old(ml)
      ensures inserted && old(size == ml) ==>
                Capacity() == CapacityFor(GrowthRequest(old(size))) && ml == MaxLoad(Capacity())
    {
      var loc := Find(p.key(e));
      if loc.Some? {
        return false;
      }
      if size < ml {
        UncheckedEmplaceAt(arrays.geo.home(p.HashOf(e)), p.HashOf(e), e);
      } else {
        UncheckedEmplaceWithRehash(e);
      }
      inserted := true;
    }

    /** Erases the element with a key equal to `k`, if any. */
    method Erase(k: K) returns (erased: nat)
      requires Valid()
      modifies this, arrays.groups, arrays.elements
      ensures Valid() && arrays == old(arrays)
      ensures erased == (if NoEqual(p, old(Elements()), k) then 0 else 1)
      ensures Elements() == Without(p, old(Elements()), k)
      ensures size == old(size) - erased
      ensures erased == 0 ==> ml == old(ml)
      ensures erased == 1 ==> exists g: nat, n: nat :: old(Located(p, arrays, k, (g, n)))
                                && ml == old(ml) - if old(arrays.groups[g].over[p.keys.hash(k) % 8]) then 1 else 0
    {
      var loc := Find(k);
      if loc.None? {
        return 0;
      }
      EraseIsWithout(p, arrays.elements[..], N * loc.value.0 + loc.value.1, k);
      EraseAt(loc.value.0, loc.value.1);
      erased := 1;
    }

    /** Performs one operation of a history. */
    method Perform(op: Op<K, E>)
      requires Valid() && size <= LIMIT
      requires op.Rehash? || op.Reserve? ==> op.n <= LIMIT
      modifies this, arrays.groups, arrays.elements
      ensures Valid() && size <= old(size) + 1
      ensures arrays == old(arrays) || (fresh(arrays.groups) && fresh(arrays.elements))
      ensures Elements() == Specified1(p, old(Elements()), op)
      ensures op.Rehash? ==> Capacity() >= op.n
      ensures op.Reserve? ==> MaxLoad(Capacity()) >= op.n
    {
      WithinWord(size);
      match op {
        case Emplace(e) =>
          var inserted := Emplace(e);
        case Erase(k) =>
          var erased := Erase(k);
        case Clear =>
          Clear();
        case Rehash(n) =>
          WithinWord(n);
          Rehash(n);
        case Reserve(n) =>
          WithinWord(n);
          Reserve(n);
      }
    }

    /** Performs a history of operations: whatever they are, the table ends with exactly the specified elements. */
    method Replay(ops: seq<Op<K, E>>)
      requires Valid() && size + |ops| <= LIMIT
      requires forall i :: 0 <= i < |ops| && (ops[i].Rehash? || ops[i].Reserve?) ==> ops[i].n <= LIMIT
      modifies this, arrays.groups, arrays.elements
      ensures Valid()
      ensures Elements() == Specified(p, old(Elements()), ops)
      ensures size == |Elements()| && size <= ml <= Capacity()
    {
      var i := 0;
      while i < |ops|
        invariant i <= |ops| && Valid()
        invariant size <= old(size) + i
        invariant arrays == old(arrays) || (fresh(arrays.groups) && fresh(arrays.elements))
        invariant Elements() == Specified(p, old(Elements()), ops[..i])
      {
        assert ops[..i + 1][..i] == ops[..i];
        Perform(ops[i]);
        i := i + 1;
      }
      assert ops[..i] == ops;
      ContentsSize(p, arrays.elements[..]);
    }

    /** Copies `e` into `na` at its own home position there. */
    method TransferElement(na: Arrays<E>, e: E)
      requires Lawful(p.keys) && ArraysOk(p, na) && na.backed && Distinct(p, na.elements[..])
      requires |Used(na.elements[..])| < CapacityOf(na) && Absent(p, na.elements[..], p.key(e))
      modifies na.groups, na.elements
      ensures ArraysOk(p, na) && Distinct(p, na.elements[..])
      ensures |Used(na.elements[..])| == old(|Used(na.elements[..])|) + 1
      ensures Contents(na.elements[..]) == old(Contents(na.elements[..])) + {e}
    {
      ghost var ns := na.elements[..];
      var hash := p.HashOf(e);
      var loc;
      ghost var i;
      loc, i := NosizeUncheckedEmplaceAt(p, na, na.geo.home(hash), hash, e);
      UsedInsert(ns, N * loc.0 + loc.1, Some(e));
      DistinctInsert(p, ns, N * loc.0 + loc.1, e);
    }
  }

  ghost function Without<K, E>(p: Policy<K, E>, s: set<E>, k: K): set<E> {
    set e | e in s && !p.keys.eq(k, p.key(e))
  }

  /** Keys being distinct, removing the element found removes all with an equal key. */
  lemma EraseIsWithout<K(!new), E(!new)>(p: Policy<K, E>, es: seq<Option<E>>, x: nat, k: K)
    requires Lawful(p.keys) && Distinct(p, es) && x < |es| && es[x].Some? && p.keys.eq(k, p.key(es[x].value))
    ensures Contents(es) - {es[x].value} == Without(p, Contents(es), k)
  {
    forall e | e in Contents(es) && e != es[x].value ensures !p.keys.eq(k, p.key(e)) {
      var y :| 0 <= y < |es| && es[y].Some? && es[y].value == e;
      assert !p.keys.eq(p.key(es[x].value), p.key(es[y].value));
    }
  }

  lemma EmptyTable<K, E>(p: Policy<K, E>, geo: Geometry, gs: seq<Group>, es: seq<Option<E>>, backed: bool)
    requires Regular(geo) && |gs| == geo.groups && |es| == N * geo.groups
    requires if backed then
               && (forall g :: 0 <= g < |gs| ==> gs[g] == EmptyGroup(g == |gs| - 1))
               && (forall x :: 0 <= x < |es| ==> es[x].None?)
             else Placed(p, geo, gs, es) && Used(es) == {}
    ensures Placed(p, geo, gs, es) && Used(es) == {} && Contents(es) == {} && Distinct(p, es)
    ensures backed ==> SentinelLast(gs)
  {
    if backed {
      EmptyPlaced(p, geo, gs, es);
    } else {
      NoneUsed(es);
    }
  }

  /** The elements at the first `i` positions of `order`. */
  ghost function Moved<E>(es: seq<Option<E>>, order: seq<nat>, i: nat): set<E>
    requires i <= |order| && forall j :: 0 <= j < |order| ==> order[j] < |es| && es[order[j]].Some?
  {
    set j | 0 <= j < i :: es[order[j]].value
  }

  /** An element still to be moved has a key equal to none of those in place. */
  lemma MovedApart<K(!new), E(!new)>(p: Policy<K, E>, es: seq<Option<E>>, order: seq<nat>, i: nat, base: set<E>)
    requires Lists(order, es, |es|) && Ascending(order) && i < |order| && Distinct(p, es)
    requires Lawful(p.keys) && Apart(p, base, Contents(es))
    ensures forall j :: 0 <= j < |order| ==> order[j] < |es| && es[order[j]].Some?
    ensures NoEqual(p, base + Moved(es, order, i), p.key(es[order[i]].value))
    ensures Moved(es, order, i + 1) == Moved(es, order, i) + {es[order[i]].value}
  {
    assert forall j :: 0 <= j < |order| ==> order[j] in order;
    var e := es[order[i]].value;
    assert e in Contents(es);
    forall f | f in base + Moved(es, order, i) ensures !p.keys.eq(p.key(e), p.key(f)) {
      if f in base {
        assert !p.keys.eq(p.key(f), p.key(e));
      } else {
        var j :| 0 <= j < i && es[order[j]].value == f;
        assert order[j] < order[i];
        assert !p.keys.eq(p.key(es[order[i]].value), p.key(es[order[j]].value));
      }
    }
  }

  lemma MovedAll<E>(es: seq<Option<E>>, order: seq<nat>)
    requires Lists(order, es, |es|)
    ensures forall j :: 0 <= j < |order| ==> order[j] < |es| && es[order[j]].Some?
    ensures Moved(es, order, |order|) == Contents(es)
  {
    assert forall j :: 0 <= j < |order| ==> order[j] in order;
    forall e | e in Contents(es) ensures e in Moved(es, order, |order|) {
      var x :| 0 <= x < |es| && es[x].Some? && es[x].value == e;
      assert x in order;
    }
  }

  /** The walk has as many stops as there are elements. */
  lemma ListSize<E>(order: seq<nat>, es: seq<Option<E>>)
    requires Ascending(order) && Lists(order, es, |es|)
    ensures |order| == |Used(es)|
  {
    AscendingSize(order);
    assert Used(es) == Members(order);
  }

  function Members(order: seq<nat>): set<nat> {
    set x | x in order
  }

  lemma {:induction false} AscendingSize(order: seq<nat>)
    requires Ascending(order)
    ensures |Members(order)| == |order|
  {
    if order != [] {
      var n := |order| - 1;
      AscendingSize(order[..n]);
      assert order == order[..n] + [order[n]];
      assert Members(order) == Members(order[..n]) + {order[n]};
      assert order[n] !in Members(order[..n]);
    }
  }

  /** Resetting a slot keeps the others as they were; the overflow bit asked for is the element's own. */
  lemma ErasedPlaced<K, E>(p: Policy<K, E>, geo: Geometry, gs: seq<Group>, es: seq<Option<E>>, g: nat, n: nat)
    requires Placed(p, geo, gs, es) && g < |gs| && n < N && Elem(es, g, n).Some?
    ensures Placed(p, geo, gs[g := gs[g].Reset(n)], es[N * g + n := None])
    ensures SentinelLast(gs) ==> SentinelLast(gs[g := gs[g].Reset(n)])
    ensures gs[g].tags[n] % 8 == p.HashOf(Elem(es, g, n).value) % 8
  {
    assert SlotOk(p, geo, gs, es, g, n);
    var gs', fs := gs[g := gs[g].Reset(n)], es[N * g + n := None];
    forall k, x | 0 <= k < |gs| && 0 <= x < N ensures SlotOk(p, geo, gs', fs, k, x) {
      assert SlotOk(p, geo, gs, es, k, x);
      if k != g || x != n {
        assert Elem(fs, k, x) == Elem(es, k, x);
        if Elem(es, k, x).Some? {
          ReachesGrows(geo, Overs(gs), Overs(gs'), p.HashOf(Elem(es, k, x).value), k);
        }
      }
    }
  }
}
