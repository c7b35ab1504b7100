/** Sums of weights over sequences. */
module Counting {

  ghost function Total<T>(xs: seq<T>, w: T -> int): int {
    if xs == [] then 0 else Total(xs[..|xs| - 1], w) + w(xs[|xs| - 1])
  }

  lemma {:induction false} TotalUpdate<T>(xs: seq<T>, w: T -> int, k: nat, v: T)
    requires k < |xs|
    ensures Total(xs[k := v], w) == Total(xs, w) - w(xs[k]) + w(v)
  {
    var n := |xs| - 1;
    if k == n {
      assert xs[k := v][..n] == xs[..n];
    } else {
      assert xs[k := v][..n] == xs[..n][k := v];
      TotalUpdate(xs[..n], w, k, v);
    }
  }

  lemma {:induction false} TotalAtMost<T>(xs: seq<T>, v: T -> int, w: T -> int)
    requires forall x :: x in xs ==> v(x) <= w(x)
    ensures Total(xs, v) <= Total(xs, w)
  {
    if xs != [] {
      assert xs[|xs| - 1] in xs;
      TotalAtMost(xs[..|xs| - 1], v, w);
    }
  }

  /** The total of weights that are all at least `c` is at least `c` each. */
  lemma {:induction false} TotalAtLeast<T>(xs: seq<T>, w: T -> int, c: int)
    requires forall x :: x in xs ==> w(x) >= c
    ensures Total(xs, w) >= c * |xs|
  {
    if xs != [] {
      assert xs[|xs| - 1] in xs;
      TotalAtLeast(xs[..|xs| - 1], w, c);
      assert c * |xs| == c * (|xs| - 1) + c;
    }
  }

  /** No single weight exceeds the total of weights that are never negative. */
  lemma {:induction false} TotalCovers<T>(xs: seq<T>, w: T -> int, k: nat)
    requires k < |xs|
    requires forall x :: x in xs ==> w(x) >= 0
    ensures Total(xs, w) >= w(xs[k])
  {
    var n := |xs| - 1;
    TotalAtLeast(xs[..n], w, 0);
    assert xs[n] in xs;
    if k < n {
      TotalCovers(xs[..n], w, k);
    }
  }

  lemma {:induction false} TotalZero<T>(xs: seq<T>, w: T -> int)
    requires forall x :: x in xs ==> w(x) == 0
    ensures Total(xs, w) == 0
  {
    if xs != [] {
      assert xs[|xs| - 1] in xs;
      TotalZero(xs[..|xs| - 1], w);
    }
  }

  /** Sequences whose elements weigh the same, one by one, have the same total. */
  lemma {:induction false} TotalPointwise<T>(xs: seq<T>, ys: seq<T>, w: T -> int)
    requires |xs| == |ys| && forall i :: 0 <= i < |xs| ==> w(xs[i]) == w(ys[i])
    ensures Total(xs, w) == Total(ys, w)
  {
    if xs != [] {
      TotalPointwise(xs[..|xs| - 1], ys[..|ys| - 1], w);
    }
  }

  lemma {:induction false} TotalConcat<T>(xs: seq<T>, ys: seq<T>, w: T -> int)
    ensures Total(xs + ys, w) == Total(xs, w) + Total(ys, w)
  {
    if ys == [] {
      assert xs + ys == xs;
    } else {
      assert (xs + ys)[..|xs + ys| - 1] == xs + ys[..|ys| - 1];
      TotalConcat(xs, ys[..|ys| - 1], w);
    }
  }

  lemma TotalInsert<T>(a: seq<T>, x: T, b: seq<T>, w: T -> int)
    ensures Total(a + [x] + b, w) == Total(a + b, w) + w(x)
  {
    TotalConcat(a + [x], b, w);
    TotalConcat(a, [x], w);
    TotalConcat(a, b, w);
    assert Total([x], w) == w(x);
  }

  lemma BagWithout<T>(a: seq<T>, x: T, b: seq<T>)
    ensures multiset(a + b) == multiset(a + [x] + b) - multiset{x}
  {
    assert multiset(a + [x] + b) == multiset(a) + multiset{x} + multiset(b);
    assert multiset(a + b) == multiset(a) + multiset(b);
  }

  /** The order of a sequence does not matter to its total. */
  lemma {:induction false} TotalPermuted<T>(xs: seq<T>, ys: seq<T>, w: T -> int)
    requires multiset(xs) == multiset(ys)
    ensures Total(xs, w) == Total(ys, w)
  {
    if xs == [] {
      assert |ys| == |multiset(ys)| == 0;
    } else {
      var n := |xs| - 1;
      var x := xs[n];
      assert x in multiset(ys);
      var k :| 0 <= k < |ys| && ys[k] == x;
      var a, b := ys[..k], ys[k + 1..];
      assert ys == a + [x] + b;
      BagWithout(a, x, b);
      LastOut(xs);
      TotalPermuted(xs[..n], a + b, w);
      TotalInsert(a, x, b, w);
    }
  }

  lemma LastOut<T>(xs: seq<T>)
    requires xs != []
    ensures multiset(xs[..|xs| - 1]) == multiset(xs) - multiset{xs[|xs| - 1]}
  {
    assert xs == xs[..|xs| - 1] + [xs[|xs| - 1]];
  }
}
