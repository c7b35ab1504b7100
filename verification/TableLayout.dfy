/** The arrays of the open-addressing table as values, and the invariant that makes probing complete. */
module TableLayout {
  import opened Prober
  import opened SizePolicy
  import opened Keys
  import opened Probing
  import opened Wrappers

  /** Key hashing and equality, and key extraction. */
  datatype Policy<!K, !E> = Policy(keys: KeyPolicy<K>, key: E -> K)
  {
    function HashOf(e: E): nat { keys.hash(key(e)) }
  }

  /** Metadata of a group: a byte per slot (0 available, 1 sentinel, else a reduced hash) and 8 overflow bits. */
  datatype Group = Group(tags: seq<nat>, over: seq<bool>)
  {
    predicate Ok() { |tags| == N && |over| == 8 }

    function Set(n: nat, hash: nat): (r: Group)
      requires Ok() && n < N
      ensures r.Ok()
    {
      this.(tags := tags[n := Reduced(hash)])
    }

    function Reset(n: nat): (r: Group)
      requires Ok() && n < N
      ensures r.Ok()
    {
      this.(tags := tags[n := 0])
    }

    function MarkOverflow(hash: nat): (r: Group)
      requires Ok()
      ensures r.Ok()
    {
      this.(over := over[hash % 8 := true])
    }

    predicate IsNotOverflowed(hash: nat)
      requires Ok()
    {
      !over[hash % 8]
    }
  }

  /** Metadata without elements; the last slot may carry the sentinel. */
  function EmptyGroup(sentinel: bool): (g: Group)
    ensures g.Ok()
    ensures forall n :: 0 <= n < N ==> g.tags[n] == if sentinel && n == N - 1 then 1 else 0
    ensures forall b :: 0 <= b < 8 ==> !g.over[b]
  {
    Group(seq(N, n => if sentinel && n == N - 1 then 1 else 0), seq(8, _ => false))
  }

  /** The slots, in ascending order, from `n` on whose metadata is `tag`: the set bits of a match mask. */
  function SlotsFrom(tags: seq<nat>, tag: nat, n: nat): (r: seq<nat>)
    requires n <= |tags|
    ensures forall i :: 0 <= i < |r| ==> n <= r[i] < |tags| && tags[r[i]] == tag
    ensures forall x :: n <= x < |tags| && tags[x] == tag ==> x in r
    ensures forall i, j :: 0 <= i < j < |r| ==> r[i] < r[j]
    decreases |tags| - n
  {
    if n == |tags| then []
    else if tags[n] == tag then [n] + SlotsFrom(tags, tag, n + 1)
    else SlotsFrom(tags, tag, n + 1)
  }

  function Match(g: Group, tag: nat): seq<nat> {
    SlotsFrom(g.tags, tag, 0)
  }

  /** The overflow bits of the groups. */
  ghost function Overs(gs: seq<Group>): (r: seq<seq<bool>>)
    ensures |r| == |gs|
    ensures forall g :: 0 <= g < |gs| ==> r[g] == gs[g].over
  {
    seq(|gs|, g requires 0 <= g < |gs| => gs[g].over)
  }

  /** Element slot `n` of group `g`. */
  function Elem<E>(es: seq<Option<E>>, g: nat, n: nat): Option<E>
    requires N * g + n < |es|
  {
    es[N * g + n]
  }

  ghost predicate Shape<E>(geo: Geometry, gs: seq<Group>, es: seq<Option<E>>) {
    && Regular(geo)
    && |gs| == geo.groups
    && |es| == N * geo.groups
    && forall g :: 0 <= g < |gs| ==> gs[g].Ok()
  }

  /** A slot holds an element exactly when its metadata is that element's reduced hash, and it can be reached. */
  ghost predicate SlotOk<K, E>(p: Policy<K, E>, geo: Geometry, gs: seq<Group>, es: seq<Option<E>>, g: nat, n: nat)
    requires Shape(geo, gs, es) && g < |gs| && n < N
  {
    var e := Elem(es, g, n);
    if e.Some? then
      && gs[g].tags[n] == Reduced(p.HashOf(e.value))
      && geo.home(p.HashOf(e.value)) < |gs|
      && Reaches(geo, Overs(gs), p.HashOf(e.value), g)
    else
      gs[g].tags[n] <= 1
  }

  ghost predicate Placed<K, E>(p: Policy<K, E>, geo: Geometry, gs: seq<Group>, es: seq<Option<E>>) {
    && Shape(geo, gs, es)
    && forall g, n :: 0 <= g < |gs| && 0 <= n < N ==> SlotOk(p, geo, gs, es, g, n)
  }

  /** No two elements have equal keys. */
  ghost predicate Distinct<K, E>(p: Policy<K, E>, es: seq<Option<E>>) {
    forall x, y :: 0 <= x < |es| && 0 <= y < |es| && x != y && es[x].Some? && es[y].Some? ==>
                     !p.keys.eq(p.key(es[x].value), p.key(es[y].value))
  }

  ghost function Contents<E>(es: seq<Option<E>>): set<E> {
    set x | 0 <= x < |es| && es[x].Some? :: es[x].value
  }

  /** Indices of the slots that hold elements. */
  function Used<E>(es: seq<Option<E>>): set<nat> {
    set x: nat | x < |es| && es[x].Some?
  }

  /** Only the last slot of the last group is the sentinel. */
  ghost predicate SentinelLast(gs: seq<Group>) {
    && |gs| > 0
    && forall g, n :: 0 <= g < |gs| && gs[g].Ok() && 0 <= n < N ==>
                        (gs[g].tags[n] == 1 <==> g == |gs| - 1 && n == N - 1)
  }

  // ----- Completeness of probing -----

  /** An element whose key equals `k` has the reduced hash of `k` and is reached from the home group of `k`. */
  lemma EqualElement<K(!new), E(!new)>(p: Policy<K, E>, geo: Geometry, gs: seq<Group>, es: seq<Option<E>>,
                                       k: K, g: nat, n: nat)
    requires Lawful(p.keys) && Placed(p, geo, gs, es) && g < |gs| && n < N
    requires Elem(es, g, n).Some? && p.keys.eq(k, p.key(Elem(es, g, n).value))
    ensures gs[g].tags[n] == Reduced(p.keys.hash(k))
    ensures Reaches(geo, Overs(gs), p.keys.hash(k), g)
  {
    assert SlotOk(p, geo, gs, es, g, n);
  }

  // ----- Counting elements -----

  lemma UsedInsert<E>(es: seq<Option<E>>, x: nat, v: Option<E>)
    requires x < |es| && es[x].None? && v.Some?
    ensures Used(es[x := v]) == Used(es) + {x} && |Used(es[x := v])| == |Used(es)| + 1
    ensures Contents(es[x := v]) == Contents(es) + {v.value}
  {
    assert Used(es[x := v]) == Used(es) + {x};
    assert x !in Used(es);
    var fs := es[x := v];
    forall e | e in Contents(es) ensures e in Contents(fs) {
      var y :| 0 <= y < |es| && es[y].Some? && es[y].value == e;
      assert fs[y].Some? && fs[y].value == e;
    }
    assert fs[x].Some? && fs[x].value == v.value;
  }

  lemma UsedRemove<E>(es: seq<Option<E>>, x: nat)
    requires x < |es| && es[x].Some?
    ensures Used(es[x := None]) == Used(es) - {x} && |Used(es[x := None])| == |Used(es)| - 1
  {
    assert Used(es[x := None]) == Used(es) - {x};
    assert x in Used(es);
  }

  lemma ContentsRemove<K(!new), E(!new)>(p: Policy<K, E>, es: seq<Option<E>>, x: nat)
    requires Lawful(p.keys) && x < |es| && es[x].Some? && Distinct(p, es)
    ensures Contents(es[x := None]) == Contents(es) - {es[x].value}
  {
    var fs := es[x := None];
    forall e | e in Contents(fs) ensures e in Contents(es) && e != es[x].value {
      var y :| 0 <= y < |fs| && fs[y].Some? && fs[y].value == e;
      assert es[y] == fs[y];
    }
    forall e | e in Contents(es) && e != es[x].value ensures e in Contents(fs) {
      var y :| 0 <= y < |es| && es[y].Some? && es[y].value == e;
      assert fs[y] == es[y];
    }
  }

  /** Fewer elements than slots besides the sentinel leave some slot available. */
  lemma AvailableSlot<K, E>(p: Policy<K, E>, geo: Geometry, gs: seq<Group>, es: seq<Option<E>>)
    returns (g: nat, n: nat)
    requires Placed(p, geo, gs, es) && SentinelLast(gs)
    requires |Used(es)| < N * geo.groups - 1
    ensures g < |gs| && n < N && gs[g].tags[n] == 0
  {
    var last := |es| - 1;
    if forall x: nat :: x < last ==> x in Used(es) {
      assert Below(last) <= Used(es);
      SubsetSize(Below(last), Used(es));
    }
    var x: nat :| x < last && x !in Used(es);
    g, n := x / N, x % N;
    assert SlotOk(p, geo, gs, es, g, n);
  }

  lemma SubsetSize<T>(a: set<T>, b: set<T>)
    requires a <= b
    ensures |a| <= |b|
  {
    assert b == a + (b - a);
  }
}
