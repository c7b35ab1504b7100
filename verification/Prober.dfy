/** The quadratic prober over a power-of-two range of group positions. */
module Prober {

  function Pow2(n: nat): (r: nat)
    ensures r >= 1
  {
    if n == 0 then 1 else 2 * Pow2(n - 1)
  }

  /** Sum of the first `i` probe steps. */
  function Triangle(i: nat): nat {
    if i == 0 then 0 else Triangle(i - 1) + i
  }

  /** The `i`-th position visited from `start` over `groups` positions. */
  function ProbePos(start: nat, i: nat, groups: nat): (p: nat)
    requires groups > 0
    ensures p < groups
  {
    (start + Triangle(i)) % groups
  }

  /** Position and step of a prober in progress. */
  datatype Pow2QuadraticProber = Prober(pos: nat, step: nat) {

    /** The prober has made `step` steps from `start`. */
    ghost predicate From(start: nat, mask: nat) {
      pos == ProbePos(start, step, mask + 1)
    }
  }

  lemma FirstProbe(start: nat, groups: nat)
    requires start < groups
    ensures ProbePos(start, 0, groups) == start
  {
    QuotientUnique(start, groups, 0, start);
  }

  /** Advances to the next position; false once `mask + 1` positions were seen. */
  method Next(pb: Pow2QuadraticProber, mask: nat, ghost start: nat)
    returns (pb': Pow2QuadraticProber, more: bool)
    requires pb.From(start, mask)
    ensures pb'.From(start, mask) && pb'.step == pb.step + 1
    ensures more <==> pb'.step <= mask
  {
    var pos, step := pb.pos, pb.step;
    step := step + 1;
    pos := (pos + step) % (mask + 1);  // "& mask", the mask being 2^n - 1
    NextProbe(start, step - 1, mask + 1);
    pb', more := Prober(pos, step), step <= mask;
  }

  lemma AddMod(a: nat, b: nat, m: nat)
    requires m > 0
    ensures (a % m + b) % m == (a + b) % m
  {
    var q := a / m;
    assert a == q * m + a % m;
    var r := (a % m + b) % m;
    var p := (a % m + b) / m;
    assert a + b == (q + p) * m + r by {
      assert (q + p) * m == q * m + p * m;
    }
    QuotientUnique(a + b, m, q + p, r);
  }

  lemma ScaleBounds(d: int, m: int)
    requires m >= 0
    ensures d >= 1 ==> d * m >= m
    ensures d <= -1 ==> d * m <= -m
    ensures d == 0 ==> d * m == 0
  {
    if d >= 1 {
      assert d * m == (d - 1) * m + m && (d - 1) * m >= 0;
    } else if d <= -1 {
      assert d * m == (d + 1) * m - m && (-1 - d) * m >= 0;
      assert (d + 1) * m == -((-1 - d) * m);
    }
  }

  lemma QuotientUnique(x: nat, m: nat, q: int, r: nat)
    requires m > 0 && r < m && x == q * m + r
    ensures x % m == r && x / m == q
  {
    var d := x / m - q;
    assert d * m == (x / m) * m - q * m;
    assert x == (x / m) * m + x % m;
    assert d * m == r - x % m;
    ScaleBounds(d, m);
  }

  lemma NextProbe(start: nat, i: nat, groups: nat)
    requires groups > 0
    ensures ProbePos(start, i + 1, groups) == (ProbePos(start, i, groups) + (i + 1)) % groups
  {
    AddMod(start + Triangle(i), i + 1, groups);
  }

  lemma {:induction false} TwiceTriangle(i: nat)
    ensures 2 * Triangle(i) == i * (i + 1)
  {
    if i > 0 {
      TwiceTriangle(i - 1);
    }
  }

  lemma OddProduct(a: nat, b: nat)
    requires a % 2 == 1 && b % 2 == 1
    ensures (a * b) % 2 == 1
  {
    var h := a / 2;
    Distribute(2 * h, 1, b);
    Distribute(h, h, b);
    assert a * b == 2 * (h * b) + b;
  }

  lemma Distribute(x: int, y: int, z: int)
    ensures (x + y) * z == x * z + y * z
  {
  }

  /** An odd factor carries no power of two: all of it divides the other factor. */
  lemma {:induction false} OddFactor(a: nat, b: nat, n: nat, q: nat) returns (k: nat)
    requires a % 2 == 1
    requires a * b == q * Pow2(n)
    ensures b == k * Pow2(n)
  {
    if n == 0 {
      k := b;
    } else {
      var p := Pow2(n - 1);
      HalveProduct(q, p);
      assert a * b == 2 * (q * p);
      if b % 2 == 1 {
        OddProduct(a, b);
      }
      var h := b / 2;
      HalveProduct(a, h);
      k := OddFactor(a, h, n - 1, q);
      HalveProduct(k, p);
    }
  }

  lemma HalveProduct(x: nat, y: nat)
    ensures x * (2 * y) == 2 * (x * y)
  {
  }

  lemma SmallMultiple(b: nat, k: nat, m: nat)
    requires b == k * m && 0 < b
    ensures b >= m
  {
    ScaleBounds(k, m);
  }

  /** The gap between two triangular numbers, doubled, factors into one odd and one even number. */
  lemma TriangleGap(i: nat, j: nat)
    requires i < j
    ensures Triangle(j) > Triangle(i)
    ensures (j - i) * (j + i + 1) == 2 * (Triangle(j) - Triangle(i))
  {
    TwiceTriangle(i);
    TwiceTriangle(j);
    assert (j - i) * (j + i + 1) == j * (j + 1) - i * (i + 1);
    ScaleBounds(j - i, j + i + 1);
  }

  lemma SameResidue(x: nat, y: nat, m: nat) returns (q: nat)
    requires m > 0 && x <= y && x % m == y % m
    ensures y - x == q * m
  {
    var d := y / m - x / m;
    assert y == (y / m) * m + y % m && x == (x / m) * m + x % m;
    assert y - x == d * m;
    ScaleBounds(d, m);
    q := d;
  }

  /** An odd factor does not help the other, below 2^n, to a multiple of 2^n. */
  lemma OddGap(a: nat, b: nat, n: nat, q: nat)
    requires a % 2 == 1 && 0 < b < Pow2(n)
    ensures a * b != q * Pow2(n)
  {
    if a * b == q * Pow2(n) {
      var k := OddFactor(a, b, n, q);
      SmallMultiple(b, k, Pow2(n));
    }
  }

  /** Factors of opposite parity, both below 2^(n+1), have no product divisible by 2^(n+1). */
  lemma GapTooSmall(a: nat, b: nat, n: nat, q: nat)
    requires 0 < a < Pow2(n + 1) && 0 < b < Pow2(n + 1)
    requires (a + b) % 2 == 1
    ensures a * b != q * Pow2(n + 1)
  {
    if a % 2 == 1 {
      OddGap(a, b, n + 1, q);
    } else {
      OddGap(b, a, n + 1, q);
    }
  }

  lemma GapNotMultiple(i: nat, j: nat, n: nat, q: nat)
    requires i < j < Pow2(n)
    ensures Triangle(j) - Triangle(i) != q * Pow2(n)
  {
    TriangleGap(i, j);
    HalveProduct(q, Pow2(n));
    GapTooSmall(j - i, j + i + 1, n, q);
  }

  /** Two of the first 2^n probes never coincide. */
  lemma DistinctProbes(start: nat, i: nat, j: nat, n: nat)
    requires i < j < Pow2(n)
    ensures ProbePos(start, i, Pow2(n)) != ProbePos(start, j, Pow2(n))
  {
    var x, y, g := start + Triangle(i), start + Triangle(j), Pow2(n);
    if x % g == y % g {
      TriangleGap(i, j);
      var q := SameResidue(x, y, g);
      GapNotMultiple(i, j, n, q);
    }
  }

  ghost function Visited(start: nat, k: nat, groups: nat): set<nat>
    requires groups > 0
  {
    set i: nat | i < k :: ProbePos(start, i, groups)
  }

  lemma {:induction false} VisitedCount(start: nat, k: nat, n: nat)
    requires k <= Pow2(n)
    ensures |Visited(start, k, Pow2(n))| == k
  {
    var g := Pow2(n);
    if k > 0 {
      VisitedCount(start, k - 1, n);
      var p := ProbePos(start, k - 1, g);
      forall i: nat | i < k - 1 ensures ProbePos(start, i, g) != p {
        DistinctProbes(start, i, k - 1, n);
      }
      assert Visited(start, k, g) == Visited(start, k - 1, g) + {p};
    } else {
      assert Visited(start, k, g) == {};
    }
  }

  function Below(n: nat): (s: set<nat>)
    ensures |s| == n
    ensures forall i: nat :: i in s <==> i < n
  {
    if n == 0 then {} else Below(n - 1) + {n - 1}
  }

  lemma EqualSizeSubset(a: set<nat>, b: set<nat>)
    requires a <= b && |a| >= |b|
    ensures a == b
  {
    assert |b - a| == |b| - |a|;
    assert b == a + (b - a);
  }

  /** The first 2^n probes cover all of 2^n groups, so they are a permutation of them. */
  lemma ProbesCover(start: nat, g: nat, n: nat) returns (i: nat)
    requires g < Pow2(n)
    ensures i < Pow2(n) && ProbePos(start, i, Pow2(n)) == g
  {
    var groups := Pow2(n);
    VisitedCount(start, groups, n);
    EqualSizeSubset(Visited(start, groups, groups), Below(groups));
    assert g in Visited(start, groups, groups);
    i :| i < groups && ProbePos(start, i, groups) == g;
  }

  /** The first 2^n positions, as a set, are exactly all positions; each occurs once. */
  lemma ProbesArePermutation(start: nat, n: nat)
    ensures forall i: nat, j: nat :: i < j < Pow2(n) ==>
                ProbePos(start, i, Pow2(n)) != ProbePos(start, j, Pow2(n))
    ensures Visited(start, Pow2(n), Pow2(n)) == Below(Pow2(n))
  {
    forall i: nat, j: nat | i < j < Pow2(n)
      ensures ProbePos(start, i, Pow2(n)) != ProbePos(start, j, Pow2(n))
    {
      DistinctProbes(start, i, j, n);
    }
    VisitedCount(start, Pow2(n), n);
    EqualSizeSubset(Visited(start, Pow2(n), Pow2(n)), Below(Pow2(n)));
  }
}
