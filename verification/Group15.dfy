/**
 Group metadata in its two physical layouts. The byte layout is a 128-bit word: bytes 0 to 14 are
 the slots, byte 15 the overflow byte. The interleaved layout spreads bit b of byte i to bit
 16 * b + i of the first (low nibbles) or second (high nibbles) 64-bit word.
 */
module Group15 {

  const AVAILABLE: bv8 := 0
  const SENTINEL: bv8 := 1

  /** The low byte of a hash with 0 and 1 moved up by 8. */
  function Reduced(hash: bv64): bv8 {
    var b := (hash & 0xFF) as bv8;
    if b < 2 then b + 8 else b
  }

  // ----- Byte layout -----

  function At(m: bv128, i: bv8): bv8
    requires i < 16
  {
    ((m >> (8 * (i as bv128))) & 0xFF) as bv8
  }

  function PutByte(m: bv128, i: bv8, b: bv8): bv128
    requires i < 16
  {
    var shift := 8 * (i as bv128);
    (m & !(0xFF << shift)) | ((b as bv128) << shift)
  }

  /** The overflow bit of a hash with value `k` modulo 8. */
  function OverflowBit(k: bv64): bv8
    requires k < 8
  {
    1 << (k as bv8)
  }

  predicate IsNotOverflowed(m: bv128, hash: bv64) {
    At(m, 15) & OverflowBit(hash % 8) == 0
  }

  function MarkOverflow(m: bv128, hash: bv64): bv128 {
    PutByte(m, 15, At(m, 15) | OverflowBit(hash % 8))
  }

  /** Asked of a slot's own metadata byte. */
  predicate MaybeCausedOverflow(m: bv128, pos: bv8)
    requires pos < 15
  {
    !IsNotOverflowed(m, At(m, pos) as bv64)
  }

  lemma PutByteSame(m: bv128, i: bv8, b: bv8)
    requires i < 16
    ensures At(PutByte(m, i, b), i) == b
  {
  }

  lemma PutByteOther(m: bv128, i: bv8, b: bv8, j: bv8)
    requires i < 16 && j < 16 && j != i
    ensures At(PutByte(m, i, b), j) == At(m, j)
  {
  }

  /** The reduced hash and the full hash select the same overflow bit. */
  lemma ReducedOverflowAgrees(m: bv128, pos: bv8, hash: bv64)
    requires pos < 15 && At(m, pos) == Reduced(hash)
    ensures MaybeCausedOverflow(m, pos) == !IsNotOverflowed(m, hash)
  {
    ReducedKeepsMod8(hash);
  }

  lemma ReducedKeepsMod8(hash: bv64)
    ensures (Reduced(hash) as bv64) % 8 == hash % 8
    ensures Reduced(hash) != AVAILABLE && Reduced(hash) != SENTINEL
  {
  }

  // ----- Interleaved layout -----

  function Nibble(x: bv64, i: bv64): bv64
    requires i < 16
  {
    ((x >> i) & 1) | (((x >> (16 + i)) & 1) << 1) | (((x >> (32 + i)) & 1) << 2) | (((x >> (48 + i)) & 1) << 3)
  }

  /** Byte `i` of the group the two words stand for. */
  function ByteOf(m0: bv64, m1: bv64, i: bv8): bv8
    requires i < 16
  {
    (Nibble(m0, i as bv64) | (Nibble(m1, i as bv64) << 4)) as bv8
  }

  /** The two words stand for the byte layout `m`. */
  ghost predicate Represents(m0: bv64, m1: bv64, m: bv128) {
    forall i: bv8 :: i < 16 ==> At(m, i) == ByteOf(m0, m1, i)
  }

  /** Bit b of a nibble at bit 16 * b: what the source's `mask` table lists. */
  function Spread(n: bv64): bv64
    requires n < 16
  {
    (n & 1) | (((n >> 1) & 1) << 16) | (((n >> 2) & 1) << 32) | (((n >> 3) & 1) << 48)
  }

  /** Bit b of a nibble repeated over the 16 bits from 16 * b: the table used for matching. */
  function Repeat(n: bv64): bv64
    requires n < 16
  {
    (if n & 1 != 0 then 0xFFFF else 0) | (if n & 2 != 0 then 0xFFFF_0000 else 0)
    | (if n & 4 != 0 then 0xFFFF_0000_0000 else 0) | (if n & 8 != 0 then 0xFFFF_0000_0000_0000 else 0)
  }

  function SetNibble(x: bv64, pos: bv64, n: bv64): bv64
    requires pos < 16 && n < 16
  {
    (x | (Spread(n) << pos)) & !(Spread(15 - n) << pos)
  }

  /** Folds the four 16-bit lanes of a word by conjunction and keeps the 15 slots. */
  function FoldAnd(x: bv64): bv64 {
    var y := (x & (x >> 32)) & 0xFFFF_FFFF;
    (y & (y >> 16)) & 0x7FFF
  }

  function FoldOr(x: bv64): bv64 {
    var y := (x | (x >> 32)) & 0xFFFF_FFFF;
    (y | (y >> 16)) & 0x7FFF
  }

  predicate Bit(mask: bv64, i: bv8)
    requires i < 16
  {
    (mask >> (i as bv64)) & 1 == 1
  }

  /** The mask flags exactly those of the 15 slots whose byte is `b`, or exactly those whose byte is not. */
  ghost predicate Flags(mask: bv64, m: bv128, b: bv8, equal: bool) {
    forall i: bv8 :: i < 16 ==> (Bit(mask, i) <==> i < 15 && (At(m, i) == b) == equal)
  }

  lemma SetNibbleSame(x: bv64, pos: bv64, n: bv64)
    requires pos < 16 && n < 16
    ensures Nibble(SetNibble(x, pos, n), pos) == n
  {
  }

  lemma SetNibbleOther(x: bv64, pos: bv64, n: bv64, i: bv64)
    requires pos < 16 && n < 16 && i < 16 && i != pos
    ensures Nibble(SetNibble(x, pos, n), i) == Nibble(x, i)
  {
  }

  /** Writing both nibbles of a byte writes that byte and no other. */
  lemma SetByteAt(m0: bv64, m1: bv64, pos: bv8, b: bv8, i: bv8)
    requires pos < 16 && i < 16
    ensures ByteOf(SetNibble(m0, pos as bv64, (b as bv64) & 0xF), SetNibble(m1, pos as bv64, (b as bv64) >> 4), i)
         == if i == pos then b else ByteOf(m0, m1, i)
  {
    if i == pos {
      SetNibbleSame(m0, pos as bv64, (b as bv64) & 0xF);
      SetNibbleSame(m1, pos as bv64, (b as bv64) >> 4);
    } else {
      SetNibbleOther(m0, pos as bv64, (b as bv64) & 0xF, i as bv64);
      SetNibbleOther(m1, pos as bv64, (b as bv64) >> 4, i as bv64);
    }
  }

  /** The word-parallel comparison, given the table entries for the two nibbles looked for. */
  function MatchWords(m0: bv64, m1: bv64, r0: bv64, r1: bv64): bv64 {
    FoldAnd(!((m1 ^ r1) | (m0 ^ r0)))
  }

  function MatchByte(m0: bv64, m1: bv64, b: bv8): bv64 {
    MatchWords(m0, m1, Repeat((b as bv64) & 0xF), Repeat((b as bv64) >> 4))
  }

  lemma RepeatCompares(x: bv64, n: bv64, i: bv64)
    requires i < 16 && n < 16
    ensures Nibble(x ^ Repeat(n), i) == 0 <==> Nibble(x, i) == n
  {
  }

  lemma ByteOfNibbles(m0: bv64, m1: bv64, b: bv8, i: bv8)
    requires i < 16
    ensures ByteOf(m0, m1, i) == b
        <==> Nibble(m0, i as bv64) == (b as bv64) & 0xF && Nibble(m1, i as bv64) == (b as bv64) >> 4
  {
  }

  /** Directly for one lane: the flag of slot `i`, given the table entries looked for. */
  lemma FlaggedLane(m0: bv64, m1: bv64, r0: bv64, r1: bv64, i: bv8)
    requires i < 16 && Bit(MatchWords(m0, m1, r0, r1), i)
    ensures i < 15 && Nibble(m0 ^ r0, i as bv64) == 0 && Nibble(m1 ^ r1, i as bv64) == 0
  {
  }

  lemma ClearLane(m0: bv64, m1: bv64, r0: bv64, r1: bv64, i: bv8)
    requires i < 15 && Nibble(m0 ^ r0, i as bv64) == 0 && Nibble(m1 ^ r1, i as bv64) == 0
    ensures Bit(MatchWords(m0, m1, r0, r1), i)
  {
  }

  lemma FlaggedLow(m0: bv64, m1: bv64, n0: bv64, r1: bv64, i: bv8)
    requires i < 16 && n0 < 16 && Bit(MatchWords(m0, m1, Repeat(n0), r1), i)
    ensures i < 15 && Nibble(m0, i as bv64) == n0
  {
    FlaggedLane(m0, m1, Repeat(n0), r1, i);
    RepeatCompares(m0, n0, i as bv64);
  }

  lemma FlaggedHigh(m0: bv64, m1: bv64, r0: bv64, n1: bv64, i: bv8)
    requires i < 16 && n1 < 16 && Bit(MatchWords(m0, m1, r0, Repeat(n1)), i)
    ensures Nibble(m1, i as bv64) == n1
  {
    FlaggedLane(m0, m1, r0, Repeat(n1), i);
    RepeatCompares(m1, n1, i as bv64);
  }

  lemma FlaggedSlotMatches(m0: bv64, m1: bv64, b: bv8, i: bv8)
    requires i < 16 && Bit(MatchByte(m0, m1, b), i)
    ensures i < 15 && ByteOf(m0, m1, i) == b
  {
    FlaggedLow(m0, m1, (b as bv64) & 0xF, Repeat((b as bv64) >> 4), i);
    FlaggedHigh(m0, m1, Repeat((b as bv64) & 0xF), (b as bv64) >> 4, i);
    ByteOfNibbles(m0, m1, b, i);
  }

  lemma MatchingSlotIsFlagged(m0: bv64, m1: bv64, b: bv8, i: bv8)
    requires i < 15 && ByteOf(m0, m1, i) == b
    ensures Bit(MatchByte(m0, m1, b), i)
  {
    ByteOfNibbles(m0, m1, b, i);
    RepeatCompares(m0, (b as bv64) & 0xF, i as bv64);
    RepeatCompares(m1, (b as bv64) >> 4, i as bv64);
    ClearLane(m0, m1, Repeat((b as bv64) & 0xF), Repeat((b as bv64) >> 4), i);
  }

  /** It flags exactly the slots whose byte is `b`. */
  lemma MatchWordsAt(m0: bv64, m1: bv64, b: bv8, i: bv8)
    requires i < 16
    ensures Bit(MatchByte(m0, m1, b), i) <==> i < 15 && ByteOf(m0, m1, i) == b
  {
    if Bit(MatchByte(m0, m1, b), i) {
      FlaggedSlotMatches(m0, m1, b, i);
    } else if i < 15 && ByteOf(m0, m1, i) == b {
      MatchingSlotIsFlagged(m0, m1, b, i);
    }
  }

  lemma AvailableWordsAt(m0: bv64, m1: bv64, i: bv8)
    requires i < 16
    ensures Bit(FoldAnd(!(m0 | m1)), i) <==> i < 15 && ByteOf(m0, m1, i) == AVAILABLE
  {
  }

  lemma OccupiedWordsAt(m0: bv64, m1: bv64, i: bv8)
    requires i < 16
    ensures Bit(FoldOr(m0 | m1), i) <==> i < 15 && ByteOf(m0, m1, i) != AVAILABLE
  {
  }

  lemma OccupiedSlotAt(m0: bv64, m1: bv64, i: bv8)
    requires i < 15
    ensures (m0 | m1) & (0x0001_0001_0001_0001 << (i as bv64)) != 0 <==> ByteOf(m0, m1, i) != AVAILABLE
  {
  }

  lemma SentinelWords(m0: bv64, m1: bv64)
    ensures m0 & 0x4000_4000_4000_4000 == 0x4000 && m1 & 0x4000_4000_4000_4000 == 0
       <==> ByteOf(m0, m1, 14) == SENTINEL
  {
  }

  /** The 16-bit lane that holds overflow bit `k`, as word and shift. */
  function OverflowShift(k: bv64): bv64
    requires k < 8
  {
    16 * (k % 4) + 15
  }

  /** The word and bit that hold overflow bit `k`. */
  predicate OverflowTest(m0: bv64, m1: bv64, k: bv64)
    requires k < 8
  {
    ((if k < 4 then m0 else m1) >> OverflowShift(k)) & 1 == 1
  }

  lemma OverflowWordsAt(m0: bv64, m1: bv64, k: bv64)
    requires k < 8
    ensures OverflowTest(m0, m1, k) <==> ByteOf(m0, m1, 15) & OverflowBit(k) != 0
  {
  }

  function MarkLow(m0: bv64, k: bv64): bv64
    requires k < 8
  {
    if k < 4 then m0 | (1 << OverflowShift(k)) else m0
  }

  function MarkHigh(m1: bv64, k: bv64): bv64
    requires k < 8
  {
    if k < 4 then m1 else m1 | (1 << OverflowShift(k))
  }

  lemma MarkWordsSame(m0: bv64, m1: bv64, k: bv64)
    requires k < 8
    ensures ByteOf(MarkLow(m0, k), MarkHigh(m1, k), 15) == ByteOf(m0, m1, 15) | OverflowBit(k)
  {
  }

  lemma MarkNibbleOther(x: bv64, k: bv64, i: bv64)
    requires k < 8 && i < 15
    ensures Nibble(x | (1 << OverflowShift(k)), i) == Nibble(x, i)
  {
  }

  lemma MarkWordsOther(m0: bv64, m1: bv64, k: bv64, i: bv8)
    requires k < 8 && i < 15
    ensures ByteOf(MarkLow(m0, k), MarkHigh(m1, k), i) == ByteOf(m0, m1, i)
  {
    MarkNibbleOther(m0, k, i as bv64);
    MarkNibbleOther(m1, k, i as bv64);
  }

  /** Gathers the three low bits of a slot from the first word. */
  function LowBits(m0: bv64, pos: bv8): bv64
    requires pos < 15
  {
    var x := (m0 >> (pos as bv64)) & 0x0001_0001_0001;
    (x | (x >> 15) | (x >> 30)) & 0xFFFF_FFFF
  }

  lemma LowBitsAt(m0: bv64, m1: bv64, pos: bv8)
    requires pos < 15
    ensures LowBits(m0, pos) % 8 == (ByteOf(m0, m1, pos) as bv64) % 8
  {
  }

  /**
   The group of platforms without SIMD: two words, updated in place, that simulate the byte layout
   `bytes` of the SIMD groups operation by operation.
   */
  class InterleavedGroup {
    var m0: bv64
    var m1: bv64
    ghost var bytes: bv128

    ghost predicate Valid()
      reads this
    {
      Represents(m0, m1, bytes)
    }

    /** The all-zero metadata of an empty group. */
    method Initialize()
      modifies this
      ensures Valid() && bytes == 0
    {
      m0, m1, bytes := 0, 0, 0;
      ZeroRepresents();
    }

    method SetByte(pos: bv8, b: bv8)
      requires Valid() && pos < 16
      modifies this
      ensures Valid() && bytes == PutByte(old(bytes), pos, b)
    {
      SetRepresents(m0, m1, bytes, pos, b);
      m0 := SetNibble(m0, pos as bv64, (b as bv64) & 0xF);
      m1 := SetNibble(m1, pos as bv64, (b as bv64) >> 4);
      bytes := PutByte(bytes, pos, b);
    }

    method Set(pos: bv8, hash: bv64)
      requires Valid() && pos < 15
      modifies this
      ensures Valid() && bytes == PutByte(old(bytes), pos, Reduced(hash))
    {
      SetByte(pos, Reduced(hash));
    }

    method Reset(pos: bv8)
      requires Valid() && pos < 15
      modifies this
      ensures Valid() && bytes == PutByte(old(bytes), pos, AVAILABLE)
    {
      SetByte(pos, AVAILABLE);
    }

    method SetSentinel()
      requires Valid()
      modifies this
      ensures Valid() && bytes == PutByte(old(bytes), 14, SENTINEL)
    {
      SetByte(14, SENTINEL);
    }

    method MarkLane(k: bv64, ghost v: bv8)
      requires Valid() && k < 8 && v == At(bytes, 15) | OverflowBit(k)
      modifies this
      ensures Valid() && bytes == PutByte(old(bytes), 15, v)
    {
      MarkRepresents(m0, m1, bytes, k, v);
      m0, m1 := MarkLow(m0, k), MarkHigh(m1, k);
      bytes := PutByte(bytes, 15, v);
    }

    method MarkOverflowOf(hash: bv64)
      requires Valid()
      modifies this
      ensures Valid() && bytes == MarkOverflow(old(bytes), hash)
    {
      MarkLane(hash % 8, At(bytes, 15) | OverflowBit(hash % 8));
    }

    /** Bit i is set exactly when slot i holds the reduced hash. */
    method Match(hash: bv64) returns (mask: bv64)
      requires Valid()
      ensures Flags(mask, bytes, Reduced(hash), true)
    {
      mask := MatchByte(m0, m1, Reduced(hash));
      MatchMask(m0, m1, bytes, Reduced(hash));
    }

    method MatchAvailable() returns (mask: bv64)
      requires Valid()
      ensures Flags(mask, bytes, AVAILABLE, true)
    {
      mask := FoldAnd(!(m0 | m1));
      AvailableMask(m0, m1, bytes);
    }

    method MatchOccupied() returns (mask: bv64)
      requires Valid()
      ensures Flags(mask, bytes, AVAILABLE, false)
    {
      mask := FoldOr(m0 | m1);
      OccupiedMask(m0, m1, bytes);
    }

    method IsOccupied(pos: bv8) returns (r: bool)
      requires Valid() && pos < 15
      ensures r <==> At(bytes, pos) != AVAILABLE
    {
      r := (m0 | m1) & (0x0001_0001_0001_0001 << (pos as bv64)) != 0;
      OccupiedSlotAt(m0, m1, pos);
    }

    /** Tests the last slot only; the SIMD layout compares any slot, so they agree where no other slot holds 1. */
    method IsSentinel(pos: bv8) returns (r: bool)
      requires Valid() && pos < 15
      ensures r <==> pos == 14 && At(bytes, 14) == SENTINEL
      ensures (r <==> At(bytes, pos) == SENTINEL) <==> (pos == 14 || At(bytes, pos) != SENTINEL)
    {
      r := pos == 14 && m0 & 0x4000_4000_4000_4000 == 0x4000 && m1 & 0x4000_4000_4000_4000 == 0;
      SentinelWords(m0, m1);
    }

    method TestNotOverflowed(hash: bv64) returns (r: bool)
      requires Valid()
      ensures r <==> IsNotOverflowed(bytes, hash)
    {
      OverflowWordsAt(m0, m1, hash % 8);
      r := !OverflowTest(m0, m1, hash % 8);
    }

    /** The three low bits of a slot's byte select the same overflow bit as the byte. */
    method GatherLowBits(pos: bv8) returns (y: bv64)
      requires Valid() && pos < 15
      ensures y % 8 == (At(bytes, pos) as bv64) % 8
    {
      y := LowBits(m0, pos);
      LowBitsOfByte(m0, m1, pos, At(bytes, pos));
    }

    method TestCausedOverflow(pos: bv8) returns (r: bool)
      requires Valid() && pos < 15
      ensures r <==> MaybeCausedOverflow(bytes, pos)
    {
      var y := GatherLowBits(pos);
      var clear := TestNotOverflowed(y);
      SameOverflowBit(bytes, At(bytes, pos), y);
      r := !clear;
    }
  }

  lemma SameOverflowBit(m: bv128, b: bv8, y: bv64)
    requires y % 8 == (b as bv64) % 8
    ensures IsNotOverflowed(m, y) == IsNotOverflowed(m, b as bv64)
  {
  }

  /** The gathered bits of a slot whose byte is `b` select the same overflow bit as `b`. */
  lemma LowBitsOfByte(m0: bv64, m1: bv64, pos: bv8, b: bv8)
    requires pos < 15 && ByteOf(m0, m1, pos) == b
    ensures LowBits(m0, pos) % 8 == (b as bv64) % 8
  {
    LowBitsAt(m0, m1, pos);
  }

  lemma MatchMask(m0: bv64, m1: bv64, m: bv128, b: bv8)
    requires Represents(m0, m1, m)
    ensures Flags(MatchByte(m0, m1, b), m, b, true)
  {
    forall i: bv8 | i < 16 ensures Bit(MatchByte(m0, m1, b), i) <==> i < 15 && At(m, i) == b {
      MatchWordsAt(m0, m1, b, i);
    }
  }

  lemma AvailableMask(m0: bv64, m1: bv64, m: bv128)
    requires Represents(m0, m1, m)
    ensures Flags(FoldAnd(!(m0 | m1)), m, AVAILABLE, true)
  {
    forall i: bv8 | i < 16 ensures Bit(FoldAnd(!(m0 | m1)), i) <==> i < 15 && At(m, i) == AVAILABLE {
      AvailableWordsAt(m0, m1, i);
    }
  }

  lemma OccupiedMask(m0: bv64, m1: bv64, m: bv128)
    requires Represents(m0, m1, m)
    ensures Flags(FoldOr(m0 | m1), m, AVAILABLE, false)
  {
    forall i: bv8 | i < 16 ensures Bit(FoldOr(m0 | m1), i) <==> i < 15 && At(m, i) != AVAILABLE {
      OccupiedWordsAt(m0, m1, i);
    }
  }

  lemma ZeroRepresents()
    ensures Represents(0, 0, 0)
  {
  }

  /** Both layouts change byte `p` to `v` and no other. */
  lemma RepresentsUpdate(m0: bv64, m1: bv64, m: bv128, w0: bv64, w1: bv64, w: bv128, p: bv8, v: bv8)
    requires Represents(m0, m1, m)
    requires forall i: bv8 :: i < 16 ==> ByteOf(w0, w1, i) == if i == p then v else ByteOf(m0, m1, i)
    requires forall i: bv8 :: i < 16 ==> At(w, i) == if i == p then v else At(m, i)
    ensures Represents(w0, w1, w)
  {
  }

  lemma PutByteAt(m: bv128, p: bv8, v: bv8)
    requires p < 16
    ensures forall i: bv8 :: i < 16 ==> At(PutByte(m, p, v), i) == if i == p then v else At(m, i)
  {
    forall i: bv8 | i < 16 ensures At(PutByte(m, p, v), i) == if i == p then v else At(m, i) {
      if i == p {
        PutByteSame(m, p, v);
      } else {
        PutByteOther(m, p, v, i);
      }
    }
  }

  lemma SetRepresents(m0: bv64, m1: bv64, m: bv128, pos: bv8, b: bv8)
    requires Represents(m0, m1, m) && pos < 16
    ensures Represents(SetNibble(m0, pos as bv64, (b as bv64) & 0xF), SetNibble(m1, pos as bv64, (b as bv64) >> 4),
                       PutByte(m, pos, b))
  {
    var w0, w1 := SetNibble(m0, pos as bv64, (b as bv64) & 0xF), SetNibble(m1, pos as bv64, (b as bv64) >> 4);
    forall i: bv8 | i < 16 ensures ByteOf(w0, w1, i) == if i == pos then b else ByteOf(m0, m1, i) {
      SetByteAt(m0, m1, pos, b, i);
    }
    PutByteAt(m, pos, b);
    RepresentsUpdate(m0, m1, m, w0, w1, PutByte(m, pos, b), pos, b);
  }

  lemma MarkRepresents(m0: bv64, m1: bv64, m: bv128, k: bv64, v: bv8)
    requires Represents(m0, m1, m) && k < 8
    requires v == At(m, 15) | OverflowBit(k)
    ensures Represents(MarkLow(m0, k), MarkHigh(m1, k), PutByte(m, 15, v))
  {
    var w0, w1 := MarkLow(m0, k), MarkHigh(m1, k);
    assert At(m, 15) == ByteOf(m0, m1, 15);
    forall i: bv8 | i < 16 ensures ByteOf(w0, w1, i) == if i == 15 then v else ByteOf(m0, m1, i) {
      if i == 15 {
        MarkWordsSame(m0, m1, k);
      } else {
        MarkWordsOther(m0, m1, k, i);
      }
    }
    PutByteAt(m, 15, v);
    RepresentsUpdate(m0, m1, m, w0, w1, PutByte(m, 15, v), 15, v);
  }
}
