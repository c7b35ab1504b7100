/** The multiply-and-fold hash mixer, on platforms without a 128-bit product. */
module Mulx {

  const B32: nat := 0x1_0000_0000
  const B64: nat := 0x1_0000_0000_0000_0000

  type Word = x: nat | x < B64

  /** Wrap-around of 64-bit arithmetic. */
  function Wrap(x: nat): Word { x % B64 }

  function Low(x: Word): (r: nat)
    ensures r < B32
  {
    x % B32
  }

  function High(x: Word): (r: nat)
    ensures r < B32
  {
    x / B32
  }

  function Xor(a: bv64, b: bv64): bv64 {
    a ^ b
  }

  /** Folding loses nothing of one half once the other is known. */
  lemma XorFolds(a: bv64, b: bv64)
    ensures Xor(a, b) ^ a == b && Xor(a, b) ^ b == a
  {
  }

  /** The mixer where the exact 128-bit product is available: low half xor high half. */
  function MulxWide(x: Word, y: Word): bv64 {
    ProductBound(x, y);
    Xor(Wrap(x * y) as bv64, ((x * y) / B64) as bv64)
  }

  /** The portable mixer: four 32-bit partial products, every operation wrapping at 64 bits. */
  method MulxPortable(x: Word, y: Word) returns (r: bv64)
    ensures r == MulxWide(x, y)
  {
    var r1, r3 := MultiplyPortable(x, y);
    r := Xor(r1 as bv64, r3 as bv64);
  }

  /** Its two words are the exact halves of the product. */
  method MultiplyPortable(x: Word, y: Word) returns (r1: Word, r3: Word)
    ensures r1 == (x * y) % B64 && r3 == (x * y) / B64
  {
    var x1, x2 := Low(x), High(x);
    var y1, y2 := Low(y), High(y);
    ghost var p := Partials(x, y);

    r3 := Wrap(x2 * y2);
    var r2a: Word := Wrap(x1 * y2);
    var r2b: Word := Wrap(x2 * y1);
    r1 := Wrap(x1 * y1);
    assert r3 == p.p22 && r2a == p.p12 && r2b == p.p21 && r1 == p.p11;

    ColumnSums(x * y, p);
    r1, r3 := AddColumns(x * y, r1, r2a, r2b, r3);
  }

  /** Adds the partial products column by column, where the sums are known to be those of `v`. */
  method AddColumns(ghost v: nat, p1: Word, r2a: Word, r2b: Word, p3: Word) returns (r1: Word, r3: Word)
    requires ColumnsOf(v, p1, r2a, r2b, p3)
    ensures r1 == v % B64 && r3 == v / B64
  {
    r1, r3 := p1, p3;
    r3 := Wrap(r3 + High(r2a));
    r3 := Wrap(r3 + High(r2b));
    var r2 := Wrap(High(r1) + Low(r2a) + Low(r2b));
    r1 := Wrap(Wrap(r2 * B32) + Low(r1));
    r3 := Wrap(r3 + High(r2));
  }

  ghost predicate ColumnsOf(v: nat, p11: Word, p12: Word, p21: Word, p22: Word) {
    var c := Wrap(High(p11) + Low(p12) + Low(p21));
    && Wrap(Wrap(c * B32) + Low(p11)) == v % B64
    && Wrap(Wrap(Wrap(p22 + High(p12)) + High(p21)) + High(c)) == v / B64
  }

  lemma NoWrap(x: nat)
    requires x < B64
    ensures Wrap(x) == x
  {
  }

  /** No sum of the high column wraps, whatever the middle column carries. */
  lemma ColumnSums(v: nat, p: Products)
    requires v == p.p22 * B64 + (p.p12 + p.p21) * B32 + p.p11 && v / B64 < B64
    ensures ColumnsOf(v, p.p11, p.p12, p.p21, p.p22)
  {
    Assemble(v, p, Wrap(High(p.p11) + Low(p.p12) + Low(p.p21)));
    NoWrap(p.p22 + High(p.p12));
    NoWrap(p.p22 + High(p.p12) + High(p.p21));
    NoWrap(v / B64);
  }

  lemma ProductLess(a: nat, b: nat, m: nat, n: nat)
    requires a <= m && b <= n
    ensures a * b <= m * n
  {
    assert m * n == a * b + a * (n - b) + (m - a) * n by {
      assert a * (n - b) == a * n - a * b;
      assert (m - a) * n == m * n - a * n;
    }
  }

  lemma ProductBound(x: Word, y: Word)
    ensures (x * y) / B64 < B64
  {
    ProductLess(x, y, B64 - 1, B64 - 1);
  }

  /** The 128-bit product is the sum of the four partial products at their places. */
  lemma Expand(x1: nat, x2: nat, y1: nat, y2: nat)
    ensures (x2 * B32 + x1) * (y2 * B32 + y1)
         == (x2 * y2) * B64 + (x1 * y2 + x2 * y1) * B32 + x1 * y1
  {
    assert (x2 * B32 + x1) * (y2 * B32 + y1) == x2 * B32 * (y2 * B32) + x2 * B32 * y1 + x1 * (y2 * B32) + x1 * y1;
  }

  lemma PartialBound(a: nat, b: nat)
    requires a < B32 && b < B32
    ensures a * b <= (B32 - 1) * (B32 - 1)
  {
    ProductLess(a, b, B32 - 1, B32 - 1);
  }

  lemma Halves(p: nat, hi: nat, lo: nat)
    requires p == hi * B64 + lo && lo < B64
    ensures p % B64 == lo && p / B64 == hi
  {
  }

  /** Adding four partial products column by column, carrying from each column into the next. */
  lemma Columns(p: nat, p11: nat, p12: nat, p21: nat, p22: nat, c: nat)
    requires p == p22 * B64 + (p12 + p21) * B32 + p11
    requires c == p11 / B32 + p12 % B32 + p21 % B32
    ensures p % B64 == (c % B32) * B32 + p11 % B32
    ensures p / B64 == p22 + p12 / B32 + p21 / B32 + c / B32
  {
    var hi := p22 + p12 / B32 + p21 / B32 + c / B32;
    var lo := (c % B32) * B32 + p11 % B32;
    Halves(p, hi, lo);
  }

  /** The four partial products, none of which overflows. */
  datatype Products = Products(p11: Word, p12: Word, p21: Word, p22: Word)

  lemma Partials(x: Word, y: Word) returns (p: Products)
    ensures p.p11 == Low(x) * Low(y) && p.p12 == Low(x) * High(y)
    ensures p.p21 == High(x) * Low(y) && p.p22 == High(x) * High(y)
    ensures x * y == p.p22 * B64 + (p.p12 + p.p21) * B32 + p.p11
    ensures (x * y) / B64 < B64
  {
    PartialBound(Low(x), Low(y));
    PartialBound(Low(x), High(y));
    PartialBound(High(x), Low(y));
    PartialBound(High(x), High(y));
    p := Products(Low(x) * Low(y), Low(x) * High(y), High(x) * Low(y), High(x) * High(y));
    Expand(Low(x), High(x), Low(y), High(y));
    ProductBound(x, y);
  }

  /** The carries collect into exactly the two halves of the product. */
  lemma Assemble(v: nat, p: Products, r2: Word)
    requires v == p.p22 * B64 + (p.p12 + p.p21) * B32 + p.p11
    requires r2 == Wrap(High(p.p11) + Low(p.p12) + Low(p.p21))
    ensures Wrap(Wrap(r2 * B32) + Low(p.p11)) == v % B64
    ensures p.p22 + High(p.p12) + High(p.p21) + High(r2) == v / B64
  {
    Columns(v, p.p11, p.p12, p.p21, p.p22, r2);
    ShiftUp(r2);
  }

  lemma ShiftUp(x: nat)
    ensures (x * B32) % B64 == (x % B32) * B32
  {
    Halves(x * B32, x / B32, (x % B32) * B32);
  }
}
