/** Permissible table sizes, hash-to-group mapping and load arithmetic (exact 7/8 maximum load factor). */
module SizePolicy {
  import opened Prober

  /** Slots per group. */
  const N: nat := 15

  /** Bits in a word. */
  const WORD: nat := 64

  /** Number of bits needed to write `n`. */
  function BitWidth(n: nat): nat {
    if n == 0 then 0 else 1 + BitWidth(n / 2)
  }

  /** The size index of the least permissible power of two that is at least `n`. */
  function SizeIndex(n: nat): (r: int)
    ensures r <= WORD
  {
    WORD - (if n <= 2 then 1 else BitWidth(n - 1))
  }

  /** Number of groups for a size index. */
  function Size(index: int): nat
    requires index <= WORD
  {
    Pow2(WORD - index)
  }

  /** The group a hash maps to: its most significant bits. */
  function Position(hash: nat, index: nat): nat {
    QuotientNonNegative(hash, Pow2(index));
    hash / Pow2(index)
  }

  lemma QuotientNonNegative(x: nat, d: nat)
    requires d > 0
    ensures x / d >= 0
  {
  }

  /** Size index of a group array for an element capacity of `n` (one slot goes to the sentinel). */
  function SizeIndexFor(n: nat): (r: int)
    ensures r <= WORD
  {
    SizeIndex(n / N + 1)
  }

  function CapacityFor(n: nat): nat {
    Size(SizeIndexFor(n)) * N - 1
  }

  /** Reduced hash of a slot: the low byte, with the two reserved values moved up by 8. */
  function Reduced(hash: nat): (r: nat)
    ensures 2 <= r < 256
    ensures r % 8 == hash % 8
  {
    var b := hash % 256;
    if b < 2 then b + 8 else b
  }

  /** Elements a table of capacity `c` accepts before it must grow. */
  function MaxLoad(c: nat): nat {
    if c <= 2 * N - 1 then c else (7 * c) / 8
  }

  /** Least integer not below n divided by the maximum load factor. */
  function CeilByLoadFactor(n: nat): nat {
    (8 * n + 6) / 7
  }

  /** Element count requested when a table of `size` elements grows. */
  function GrowthRequest(size: nat): nat {
    CeilByLoadFactor(size + size / 61 + 1)
  }

  lemma {:induction false} Pow2Mono(a: nat, b: nat)
    requires a <= b
    ensures Pow2(a) <= Pow2(b)
  {
    if a < b {
      Pow2Mono(a, b - 1);
    }
  }

  lemma {:induction false} Pow2Sum(a: nat, b: nat)
    ensures Pow2(a + b) == Pow2(a) * Pow2(b)
  {
    if a > 0 {
      Pow2Sum(a - 1, b);
      assert a - 1 + b == a + b - 1;
      HalveProduct(Pow2(b), Pow2(a - 1));
    }
  }

  /** The width of `n` is the exponent of the least power of two above `n`. */
  lemma {:induction false} BitWidthBounds(n: nat)
    ensures n < Pow2(BitWidth(n))
    ensures n > 0 ==> BitWidth(n) >= 1 && Pow2(BitWidth(n) - 1) <= n
  {
    if n > 0 {
      BitWidthBounds(n / 2);
    }
  }

  /** The chosen size suffices and is the least power of two, from 2 on, that does. */
  lemma SizeIndexIsLeast(n: nat)
    ensures SizeIndex(n) <= WORD - 1
    ensures Size(SizeIndex(n)) >= n
    ensures forall k: nat :: k >= 1 && Pow2(k) >= n ==> Size(SizeIndex(n)) <= Pow2(k)
  {
    if n > 2 {
      var w := BitWidth(n - 1);
      BitWidthBounds(n - 1);
      forall k: nat | k >= 1 && Pow2(k) >= n ensures Pow2(w) <= Pow2(k) {
        if k < w {
          Pow2Mono(k, w - 1);
        } else {
          Pow2Mono(w, k);
        }
      }
    } else {
      assert Pow2(1) == 2;
      forall k: nat | k >= 1 ensures 2 <= Pow2(k) {
        Pow2Mono(1, k);
      }
    }
  }

  /** A table made for `n` elements can hold `n` elements. */
  lemma CapacitySuffices(n: nat)
    ensures CapacityFor(n) >= n && CapacityFor(n) >= 2 * N - 1
  {
    SizeIndexIsLeast(n / N + 1);
    Pow2Mono(1, WORD - SizeIndexFor(n));
  }

  /** Capacities exceed what is asked for by no more than a factor of two. */
  lemma CapacityUpper(n: nat)
    ensures CapacityFor(n) <= 2 * n || CapacityFor(n) == 2 * N - 1
  {
    var m := n / N + 1;
    if m > 2 {
      BitWidthBounds(m - 1);
    } else {
      assert Pow2(1) == 2;
    }
  }

  /** Up to 2^60 elements, every size the table computes fits a word. */
  const LIMIT: nat := Pow2(60)

  lemma WithinWord(n: nat)
    requires n <= LIMIT
    ensures GrowthRequest(n) < Pow2(WORD)
    ensures CapacityFor(n) < Pow2(WORD) && CapacityFor(CeilByLoadFactor(n)) < Pow2(WORD)
  {
    Pow2Sum(4, 60);
    Pow2Mono(10, 60);
    CapacityUpper(n);
    CapacityUpper(CeilByLoadFactor(n));
  }

  /** Every 64-bit hash maps to an existing group. */
  lemma PositionInRange(hash: nat, bits: nat)
    requires hash < Pow2(WORD) && bits <= WORD
    ensures Position(hash, WORD - bits) < Pow2(bits)
  {
    Pow2Sum(bits, WORD - bits);
    DivBound(hash, Pow2(WORD - bits), Pow2(bits));
  }

  lemma DivBound(x: nat, d: nat, m: nat)
    requires d > 0 && x < m * d
    ensures x / d < m
  {
    var q := x / d;
    assert q * d <= x;
    if q >= m {
      ScaleBounds(q - m, d);
      Distribute(q - m, m, d);
    }
  }

  lemma {:induction false} BitWidthBelowPow2(k: nat)
    ensures BitWidth(Pow2(k) - 1) == k
  {
    if k > 0 {
      BitWidthBelowPow2(k - 1);
      assert (Pow2(k) - 1) / 2 == Pow2(k - 1) - 1;
    }
  }

  /** Capacities are fixed points: asking for a capacity gives that capacity. */
  lemma CapacityIdempotent(n: nat)
    ensures CapacityFor(CapacityFor(n)) == CapacityFor(n)
  {
    var k: nat := WORD - SizeIndexFor(n);
    SizeIndexIsLeast(n / N + 1);
    Pow2Mono(1, k);
    assert CapacityFor(n) / N + 1 == Pow2(k);
    if k > 1 {
      Pow2Mono(2, k);
      BitWidthBelowPow2(k);
    }
  }

  lemma MaxLoadWithinCapacity(c: nat)
    ensures MaxLoad(c) <= c
  {
  }

  /** Growth always makes room: the new maximum load exceeds the current size. */
  lemma GrowthMakesRoom(size: nat)
    ensures MaxLoad(CapacityFor(GrowthRequest(size))) > size
  {
    CapacitySuffices(GrowthRequest(size));
  }

  /** An explicit rehash to `n`, raised to what the current size needs, keeps size within the new load. */
  lemma RehashKeepsSizeWithinLoad(size: nat, n: nat)
    requires n >= CeilByLoadFactor(size)
    ensures size <= MaxLoad(CapacityFor(n))
  {
    CapacitySuffices(n);
  }

  // ----- Exactness -----

  /** Small tables may be filled; from 30 on the maximum load is the greatest integer within 7/8 of the capacity. */
  lemma MaxLoadIsExact(c: nat)
    ensures c <= 29 ==> MaxLoad(c) == c
    ensures c > 29 ==> 8 * MaxLoad(c) <= 7 * c < 8 * (MaxLoad(c) + 1)
  {
  }

  /** The least integer of which 7/8 is at least `n`. */
  lemma CeilIsExact(n: nat)
    ensures 7 * CeilByLoadFactor(n) >= 8 * n
    ensures n > 0 ==> CeilByLoadFactor(n) > 0 && 7 * (CeilByLoadFactor(n) - 1) < 8 * n
  {
  }

  /** The low byte of the hash is kept, but for the two values with a meaning of their own. */
  lemma ReducedKeepsLowByte(hash: nat)
    ensures hash % 256 >= 2 ==> Reduced(hash) == hash % 256
    ensures hash % 256 < 2 ==> Reduced(hash) == hash % 256 + 8
  {
  }

  /** The home group is the number that the `bits` most significant bits of the hash make up. */
  lemma PositionIsHighBits(hash: nat, bits: nat)
    requires hash < Pow2(WORD) && bits <= WORD
    ensures var p, u := Position(hash, WORD - bits), Pow2(WORD - bits); p * u <= hash < (p + 1) * u
  {
    var u := Pow2(WORD - bits);
    assert hash == (hash / u) * u + hash % u;
    Distribute(hash / u, 1, u);
  }

  /** Capacities are one less than N times a power of two. */
  lemma CapacityIsPermissible(n: nat) returns (k: nat)
    ensures k >= 1 && CapacityFor(n) == N * Pow2(k) - 1
  {
    SizeIndexIsLeast(n / N + 1);
    k := WORD - SizeIndexFor(n);
  }

  /** A request above one permissible capacity and within the next gets the next. */
  lemma CapacityBetween(n: nat, k: nat)
    requires k >= 1 && N * Pow2(k) - 1 < n <= N * Pow2(k + 1) - 1
    ensures CapacityFor(n) == N * Pow2(k + 1) - 1
  {
    var m := n / N + 1;
    Pow2Mono(1, k);
    assert Pow2(k) < m <= Pow2(k + 1);
    BitWidthBounds(m - 1);
    var w := BitWidth(m - 1);
    if w < k + 1 {
      Pow2Mono(w, k);
    } else if w > k + 1 {
      Pow2Mono(k + 1, w - 1);
    }
  }

  /** A table filled to its initial maximum load grows to the next permissible capacity: the groups double. */
  lemma GrowthDoubles(k: nat)
    requires k >= 1
    ensures CapacityFor(GrowthRequest(MaxLoad(N * Pow2(k) - 1))) == N * Pow2(k + 1) - 1
  {
    Pow2Mono(1, k);
    GrowthRequestBounds(N * Pow2(k) - 1);
    CapacityBetween(GrowthRequest(MaxLoad(N * Pow2(k) - 1)), k);
  }

  lemma GrowthRequestBounds(c: nat)
    requires c >= 2 * N - 1
    ensures c < GrowthRequest(MaxLoad(c)) <= 2 * c + 1
  {
    MaxLoadIsExact(c);
    var size := MaxLoad(c);
    CeilIsExact(size + size / 61 + 1);
  }
}
