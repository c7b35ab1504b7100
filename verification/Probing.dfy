/** Where the elements of a key may be: the probe sequence of its hash and the overflow bits along it. */
module Probing {
  import opened Prober
  import opened SizePolicy

  /** How hashes and probe steps map to the groups of a table. */
  datatype Geometry = Geometry(groups: nat, home: nat -> nat, probe: (nat, nat) -> nat)

  /** All groups are within range, and every probe sequence comes to each of them within `groups` steps. */
  ghost predicate Regular(geo: Geometry) {
    && geo.groups > 0
    && (forall h: nat :: h < Pow2(WORD) ==> geo.home(h) < geo.groups)
    && (forall start: nat, i: nat :: geo.probe(start, i) < geo.groups)
    && (forall start: nat, g: nat :: g < geo.groups ==> Covers(geo, start, g))
  }

  ghost predicate Covers(geo: Geometry, start: nat, g: nat) {
    exists i: nat :: i < geo.groups && geo.probe(start, i) == g
  }

  /** The mapping of a table with 2^bits groups: high bits of the hash, then triangular steps. */
  function Actual(bits: nat): Geometry
    requires bits <= WORD
  {
    Geometry(Pow2(bits), hash => Position(hash, WORD - bits), (start, i) => ProbePos(start, i, Pow2(bits)))
  }

  ghost predicate IsActual(geo: Geometry) {
    exists bits: nat :: 1 <= bits <= WORD && geo == Actual(bits)
  }

  /** The geometries tables have. */
  type TableGeometry = geo: Geometry | IsActual(geo) witness Actual(1)

  lemma ActualIsRegular(geo: Geometry)
    requires IsActual(geo)
    ensures Regular(geo)
  {
    var bits: nat :| 1 <= bits <= WORD && geo == Actual(bits);
    forall h: nat | h < Pow2(WORD) ensures geo.home(h) < geo.groups {
      PositionInRange(h, bits);
    }
    forall start: nat, g: nat | g < geo.groups ensures Covers(geo, start, g) {
      var i := ProbesCover(start, g, bits);
      assert geo.probe(start, i) == g;
    }
  }

  /** A probe sequence starts at its home group. */
  lemma FirstIsHome(geo: TableGeometry, start: nat)
    requires start < geo.groups
    ensures geo.probe(start, 0) == start
  {
    var bits: nat :| 1 <= bits <= WORD && geo == Actual(bits);
    FirstProbe(start, Pow2(bits));
  }

  /** The prober is at step `i` from `start`. */
  ghost predicate AtStep(geo: Geometry, pb: Pow2QuadraticProber, start: nat, i: nat) {
    pb.step == i && pb.pos == geo.probe(start, i)
  }

  /** The prober follows the probe sequence of the table, to the end of the groups. */
  method Advance(geo: TableGeometry, pb: Pow2QuadraticProber, ghost start: nat)
    returns (pb': Pow2QuadraticProber, more: bool)
    requires AtStep(geo, pb, start, pb.step)
    ensures AtStep(geo, pb', start, pb.step + 1)
    ensures more <==> pb.step + 1 < geo.groups
  {
    ActualIsRegular(geo);
    ghost var bits: nat :| 1 <= bits <= WORD && geo == Actual(bits);
    pb', more := Next(pb, geo.groups - 1, start);
  }

  // ----- Overflow bits -----

  /** None of the first `n` groups probed from `start` is `g`. */
  ghost predicate Unvisited(geo: Geometry, start: nat, g: nat, n: nat) {
    forall j: nat :: j < n ==> geo.probe(start, j) != g
  }

  /** After as many steps as there are groups, no group is left. */
  lemma NothingUnvisited(geo: Geometry, start: nat, g: nat, n: nat)
    requires Regular(geo) && g < geo.groups <= n
    ensures !Unvisited(geo, start, g, n)
  {
    assert Covers(geo, start, g);
  }

  /** Overflow bit of `hash` in group `g`; `over` has 8 bits a group. */
  predicate OverBit(over: seq<seq<bool>>, g: nat, hash: nat) {
    g < |over| && |over[g]| == 8 && over[g][hash % 8]
  }

  /** The group probed for `hash` at step `i`. */
  function Probed(geo: Geometry, hash: nat, i: nat): nat {
    geo.probe(geo.home(hash), i)
  }

  /** The first `n` groups probed for `hash` carry its overflow bit. */
  ghost predicate BitsUpTo(geo: Geometry, over: seq<seq<bool>>, hash: nat, n: int) {
    forall j: nat :: j < n ==> OverBit(over, Probed(geo, hash, j), hash)
  }

  /** Every group probed for `hash` before group `g` carries its overflow bit. */
  ghost predicate Reaches(geo: Geometry, over: seq<seq<bool>>, hash: nat, g: nat) {
    forall j: nat :: Unvisited(geo, geo.home(hash), g, j + 1) ==> OverBit(over, Probed(geo, hash, j), hash)
  }

  ghost predicate Grows(a: seq<seq<bool>>, b: seq<seq<bool>>) {
    forall g: nat, h: nat :: OverBit(a, g, h) ==> OverBit(b, g, h)
  }

  /** Setting overflow bits keeps every element reachable. */
  lemma ReachesGrows(geo: Geometry, a: seq<seq<bool>>, b: seq<seq<bool>>, hash: nat, g: nat)
    requires Grows(a, b) && Reaches(geo, a, hash, g)
    ensures Reaches(geo, b, hash, g)
  {
  }

  /** If the first `i` groups probed carry the bit, the group probed next can be reached. */
  lemma BitsReach(geo: Geometry, over: seq<seq<bool>>, hash: nat, i: nat)
    requires BitsUpTo(geo, over, hash, i)
    ensures Reaches(geo, over, hash, Probed(geo, hash, i))
  {
    forall j: nat | Unvisited(geo, geo.home(hash), Probed(geo, hash, i), j + 1)
      ensures OverBit(over, Probed(geo, hash, j), hash)
    {
      assert j < i;
    }
  }

  lemma SetBitGrows(over: seq<seq<bool>>, g: nat, h: nat)
    requires g < |over| && |over[g]| == 8
    ensures Grows(over, over[g := over[g][h % 8 := true]])
    ensures OverBit(over[g := over[g][h % 8 := true]], g, h)
  {
  }
}
