/** The groups of the table, with numbers for bytes, are what the 128-bit group metadata stands for. */
module GroupRefinement {
  import opened SizePolicy
  import G = Group15
  import T = TableLayout
  import C = TableCore

  // ----- Words and numbers -----

  /** The number whose `k` lowest bytes are those of `h`. */
  function Value(h: bv64, k: nat): nat {
    if k == 0 then 0 else (h & 0xFF) as nat + 256 * Value(h >> 8, k - 1)
  }

  /** The hash value a word stands for. */
  function Word(h: bv64): nat {
    Value(h, 8)
  }

  lemma {:induction false} LowDigit(x: nat, rest: nat)
    requires x < 256
    ensures (x + 256 * rest) % 256 == x
    ensures (x + 256 * rest) % 8 == x % 8
  {
    if rest > 0 {
      LowDigit(x, rest - 1);
      OneMore(x + 256 * (rest - 1));
      assert x + 256 * rest == x + 256 * (rest - 1) + 256;
    }
  }

  lemma OneMore(y: nat)
    ensures (y + 256) % 256 == y % 256
    ensures (y + 256) % 8 == y % 8
  {
  }

  lemma LowByte(h: bv64)
    ensures Word(h) % 256 == ((h & 0xFF) as bv8) as nat
    ensures Word(h) % 8 == (((h & 0xFF) as bv8) as nat) % 8
  {
    ByteValue(h);
    LowDigit((h & 0xFF) as nat, Value(h >> 8, 7));
  }

  lemma ByteValue(h: bv64)
    ensures (h & 0xFF) as nat == ((h & 0xFF) as bv8) as nat < 256
  {
  }

  lemma ByteModulo8(b: bv8)
    ensures (b % 8) as nat == (b as nat) % 8
  {
  }

  lemma WordModulo8(h: bv64)
    ensures ((h % 8) as bv8) as nat == Word(h) % 8
  {
    var b := (h & 0xFF) as bv8;
    LowByte(h);
    ByteModulo8(b);
    SameModulo8(h);
  }

  lemma SameModulo8(h: bv64)
    ensures (h % 8) as bv8 == ((h & 0xFF) as bv8) % 8
  {
  }

  lemma ByteNumbers(a: bv8, b: bv8)
    ensures a == b <==> a as nat == b as nat
    ensures a < 2 <==> a as nat < 2
  {
  }

  lemma MovedUp(b: bv8)
    requires b < 2
    ensures (b + 8) as nat == b as nat + 8
  {
  }

  /** Both layouts reduce a hash to the same byte. */
  lemma ReducedView(hash: bv64)
    ensures G.Reduced(hash) as nat == Reduced(Word(hash))
  {
    var b := (hash & 0xFF) as bv8;
    LowByte(hash);
    ByteNumbers(b, 0);
    if b < 2 {
      MovedUp(b);
    }
  }

  // ----- Groups -----

  function TagOf(m: bv128, n: nat): nat
    requires n < N
  {
    G.At(m, n as bv8) as nat
  }

  predicate OverOf(m: bv128, b: nat)
    requires b < 8
  {
    G.At(m, 15) & G.OverflowBit(b as bv64) != 0
  }

  /** The group a metadata word stands for: the bytes of its slots, and its overflow bits. */
  function View(m: bv128): (g: T.Group)
    ensures g.Ok()
  {
    T.Group(seq<nat>(N, n requires 0 <= n < N => TagOf(m, n)), seq(8, b requires 0 <= b < 8 => OverOf(m, b)))
  }

  lemma SlotNumbers(n: nat, pos: bv8)
    requires n < N
    ensures n as bv8 == pos <==> n == pos as nat
    ensures n as bv8 < 15
  {
  }

  lemma ViewTag(m: bv128, n: nat)
    requires n < N
    ensures View(m).tags[n] == TagOf(m, n)
  {
  }

  lemma ViewOver(m: bv128, b: nat)
    requires b < 8
    ensures View(m).over[b] == OverOf(m, b)
  {
  }

  /** Groups that agree in every slot and every overflow bit. */
  lemma SameGroup(g: T.Group, h: T.Group)
    requires g.Ok() && h.Ok()
    requires forall n: nat :: n < N ==> g.tags[n] == h.tags[n]
    requires forall b: nat :: b < 8 ==> g.over[b] == h.over[b]
    ensures g == h
  {
  }

  lemma PutTag(m: bv128, pos: bv8, v: bv8, n: nat)
    requires pos < 16 && n < N
    ensures TagOf(G.PutByte(m, pos, v), n) == if n == pos as nat then v as nat else TagOf(m, n)
  {
    SlotNumbers(n, pos);
    if n == pos as nat {
      G.PutByteSame(m, pos, v);
    } else {
      G.PutByteOther(m, pos, v, n as bv8);
    }
  }

  lemma PutOver(m: bv128, pos: bv8, v: bv8, b: nat)
    requires pos < 15 && b < 8
    ensures OverOf(G.PutByte(m, pos, v), b) == OverOf(m, b)
  {
    G.PutByteOther(m, pos, v, 15);
  }

  /** Writing the byte of a slot writes its number and leaves the overflow bits alone. */
  lemma PutView(m: bv128, pos: bv8, v: bv8)
    requires pos < 15
    ensures pos as nat < N
    ensures View(G.PutByte(m, pos, v)) == View(m).(tags := View(m).tags[pos as nat := v as nat])
  {
    SlotNumber(pos);
    var w := G.PutByte(m, pos, v);
    forall n: nat | n < N ensures View(w).tags[n] == if n == pos as nat then v as nat else View(m).tags[n] {
      PutTag(m, pos, v, n);
      ViewTag(m, n);
      ViewTag(w, n);
    }
    forall b: nat | b < 8 ensures View(w).over[b] == View(m).over[b] {
      PutOver(m, pos, v, b);
      ViewOver(m, b);
      ViewOver(w, b);
    }
    SameGroup(View(w), View(m).(tags := View(m).tags[pos as nat := v as nat]));
  }

  lemma SlotNumber(pos: bv8)
    requires pos < 15
    ensures pos as nat < 15
  {
  }

  lemma SetView(m: bv128, pos: bv8, hash: bv64)
    requires pos < 15
    ensures pos as nat < N
    ensures View(G.PutByte(m, pos, G.Reduced(hash))) == View(m).Set(pos as nat, Word(hash))
  {
    PutView(m, pos, G.Reduced(hash));
    ReducedView(hash);
  }

  lemma ResetView(m: bv128, pos: bv8)
    requires pos < 15
    ensures pos as nat < N
    ensures View(G.PutByte(m, pos, G.AVAILABLE)) == View(m).Reset(pos as nat)
  {
    PutView(m, pos, G.AVAILABLE);
  }

  /** Fresh metadata, without and with the sentinel. */
  lemma EmptyView()
    ensures View(0) == T.EmptyGroup(false)
    ensures View(G.PutByte(0, 14, G.SENTINEL)) == T.EmptyGroup(true)
  {
    PutView(0, 14, G.SENTINEL);
    assert (14 as bv8) as nat == 14;
    forall n: nat | n < N ensures TagOf(0, n) == 0 {
      ZeroByte(n as bv8);
    }
    ZeroByte(15);
    assert forall b: nat :: b < 8 ==> !OverOf(0, b);
  }

  lemma ZeroByte(i: bv8)
    requires i < 16
    ensures G.At(0, i) == 0
  {
  }

  // ----- Overflow bits -----

  lemma BitNumbers(b: nat, k: bv64)
    requires b < 8 && k < 8
    ensures b as bv64 == k <==> b == (k as bv8) as nat
    ensures b as bv64 < 8
  {
  }

  lemma SetBit(x: bv8, k: bv64, b: bv64)
    requires k < 8 && b < 8
    ensures (x | G.OverflowBit(k)) & G.OverflowBit(b) != 0 <==> b == k || x & G.OverflowBit(b) != 0
  {
  }

  lemma MarkOver(m: bv128, hash: bv64, b: nat)
    requires b < 8
    ensures OverOf(G.MarkOverflow(m, hash), b) == (b == Word(hash) % 8 || OverOf(m, b))
  {
    var k := hash % 8;
    G.PutByteSame(m, 15, G.At(m, 15) | G.OverflowBit(k));
    WordModulo8(hash);
    BitNumbers(b, k);
    SetBit(G.At(m, 15), k, b as bv64);
  }

  lemma MarkTag(m: bv128, hash: bv64, n: nat)
    requires n < N
    ensures TagOf(G.MarkOverflow(m, hash), n) == TagOf(m, n)
  {
    assert (15 as bv8) as nat == 15;
    PutTag(m, 15, G.At(m, 15) | G.OverflowBit(hash % 8), n);
  }

  lemma MarkView(m: bv128, hash: bv64)
    ensures View(G.MarkOverflow(m, hash)) == View(m).MarkOverflow(Word(hash))
  {
    var w := G.MarkOverflow(m, hash);
    forall n: nat | n < N ensures View(w).tags[n] == View(m).tags[n] {
      MarkTag(m, hash, n);
      ViewTag(m, n);
      ViewTag(w, n);
    }
    forall b: nat | b < 8 ensures View(w).over[b] == (b == Word(hash) % 8 || View(m).over[b]) {
      MarkOver(m, hash, b);
      ViewOver(m, b);
      ViewOver(w, b);
    }
    SameGroup(View(w), View(m).MarkOverflow(Word(hash)));
  }

  lemma OverTest(m: bv128, hash: bv64)
    ensures G.IsNotOverflowed(m, hash) == !OverOf(m, Word(hash) % 8)
  {
    WordModulo8(hash);
    BitNumbers(Word(hash) % 8, hash % 8);
  }

  lemma NotOverflowedView(m: bv128, hash: bv64)
    ensures G.IsNotOverflowed(m, hash) == View(m).IsNotOverflowed(Word(hash))
  {
    OverTest(m, hash);
    ViewOver(m, Word(hash) % 8);
  }

  lemma ByteTest(m: bv128, b: bv8)
    ensures G.IsNotOverflowed(m, b as bv64) == !OverOf(m, (b as nat) % 8)
  {
    OverTest(m, b as bv64);
    WordOfByte(b);
  }

  lemma TagAt(m: bv128, pos: bv8)
    requires pos < 15 && pos as nat < N
    ensures TagOf(m, pos as nat) == G.At(m, pos) as nat
  {
    SlotNumbers(pos as nat, pos);
  }

  lemma CausedBit(m: bv128, pos: bv8)
    requires pos < 15 && pos as nat < N
    ensures G.MaybeCausedOverflow(m, pos) == OverOf(m, TagOf(m, pos as nat) % 8)
  {
    TagAt(m, pos);
    ByteTest(m, G.At(m, pos));
  }

  /** Asking by the slot's own byte, as the recovery of an erased slot does. */
  lemma CausedView(m: bv128, pos: bv8)
    requires pos < 15
    ensures pos as nat < N
    ensures G.MaybeCausedOverflow(m, pos) == !View(m).IsNotOverflowed(View(m).tags[pos as nat])
  {
    SlotNumber(pos);
    CausedBit(m, pos);
    ViewTag(m, pos as nat);
    ViewOver(m, TagOf(m, pos as nat) % 8);
  }

  lemma WordOfByte(b: bv8)
    ensures Word(b as bv64) % 8 == (b as nat) % 8
  {
    LowByte(b as bv64);
    assert ((b as bv64) & 0xFF) as bv8 == b;
  }

  // ----- Match masks -----

  predicate BitAt(mask: bv64, n: nat)
    requires n < N
  {
    G.Bit(mask, n as bv8)
  }

  /** The set bits of a mask are the slots listed. */
  ghost predicate Lists(mask: bv64, slots: seq<nat>) {
    forall n: nat :: n < N ==> (BitAt(mask, n) <==> n in slots)
  }

  lemma FlaggedNumber(m: bv128, mask: bv64, v: bv8, equal: bool, n: nat)
    requires G.Flags(mask, m, v, equal) && n < N
    ensures BitAt(mask, n) <==> (TagOf(m, n) == v as nat) == equal
  {
    SlotNumbers(n, 15);
    ByteNumbers(G.At(m, n as bv8), v);
  }

  lemma FlaggedView(m: bv128, mask: bv64, v: bv8, equal: bool, n: nat)
    requires G.Flags(mask, m, v, equal) && n < N
    ensures BitAt(mask, n) <==> (View(m).tags[n] == v as nat) == equal
  {
    FlaggedNumber(m, mask, v, equal, n);
    ViewTag(m, n);
  }

  lemma MatchLists(mask: bv64, g: T.Group, tag: nat)
    requires g.Ok() && forall n: nat :: n < N ==> (BitAt(mask, n) <==> g.tags[n] == tag)
    ensures Lists(mask, T.Match(g, tag))
  {
  }

  lemma OccupiedLists(mask: bv64, g: T.Group)
    requires g.Ok() && forall n: nat :: n < N ==> (BitAt(mask, n) <==> g.tags[n] != 0)
    ensures Lists(mask, C.ReallyOccupied(g.tags, false, 0))
  {
  }

  lemma MatchesListed(m: bv128, mask: bv64, v: bv8)
    requires G.Flags(mask, m, v, true)
    ensures Lists(mask, T.Match(View(m), v as nat))
  {
    forall n: nat | n < N ensures BitAt(mask, n) <==> View(m).tags[n] == v as nat {
      FlaggedView(m, mask, v, true, n);
    }
    MatchLists(mask, View(m), v as nat);
  }

  lemma MatchView(m: bv128, mask: bv64, hash: bv64)
    requires G.Flags(mask, m, G.Reduced(hash), true)
    ensures Lists(mask, T.Match(View(m), Reduced(Word(hash))))
  {
    MatchesListed(m, mask, G.Reduced(hash));
    ReducedView(hash);
  }

  lemma AvailableView(m: bv128, mask: bv64)
    requires G.Flags(mask, m, G.AVAILABLE, true)
    ensures Lists(mask, T.Match(View(m), 0))
  {
    MatchesListed(m, mask, G.AVAILABLE);
  }

  /** With the last slot left out for the last group, these are the slots a walk visits. */
  lemma OccupiedView(m: bv128, mask: bv64)
    requires G.Flags(mask, m, G.AVAILABLE, false)
    ensures Lists(mask, C.ReallyOccupied(View(m).tags, false, 0))
  {
    forall n: nat | n < N ensures BitAt(mask, n) <==> View(m).tags[n] != 0 {
      FlaggedView(m, mask, G.AVAILABLE, false, n);
    }
    OccupiedLists(mask, View(m));
  }

  // ----- The class -----

  datatype Op = Set(pos: bv8, hash: bv64) | Reset(pos: bv8) | Mark(hash: bv64)

  predicate InRange(op: Op) {
    !op.Mark? ==> op.pos < 15 && op.pos as nat < N
  }

  /** What an operation makes of a group of the table. */
  function Applied(g: T.Group, op: Op): (r: T.Group)
    requires g.Ok() && InRange(op)
    ensures r.Ok()
  {
    match op
    case Set(pos, hash) => g.Set(pos as nat, Word(hash))
    case Reset(pos) => g.Reset(pos as nat)
    case Mark(hash) => g.MarkOverflow(Word(hash))
  }

  ghost function AllApplied(g: T.Group, ops: seq<Op>): (r: T.Group)
    requires g.Ok() && forall i :: 0 <= i < |ops| ==> InRange(ops[i])
    ensures r.Ok()
  {
    if ops == [] then g else Applied(AllApplied(g, ops[..|ops| - 1]), ops[|ops| - 1])
  }

  method PerformSet(x: G.InterleavedGroup, pos: bv8, hash: bv64)
    requires x.Valid() && pos < 15 && pos as nat < N
    modifies x
    ensures x.Valid() && View(x.bytes) == View(old(x.bytes)).Set(pos as nat, Word(hash))
  {
    SetView(x.bytes, pos, hash);
    x.Set(pos, hash);
  }

  method PerformReset(x: G.InterleavedGroup, pos: bv8)
    requires x.Valid() && pos < 15 && pos as nat < N
    modifies x
    ensures x.Valid() && View(x.bytes) == View(old(x.bytes)).Reset(pos as nat)
  {
    ResetView(x.bytes, pos);
    x.Reset(pos);
  }

  method PerformMark(x: G.InterleavedGroup, hash: bv64)
    requires x.Valid()
    modifies x
    ensures x.Valid() && View(x.bytes) == View(old(x.bytes)).MarkOverflow(Word(hash))
  {
    MarkView(x.bytes, hash);
    x.MarkOverflowOf(hash);
  }

  method Perform(x: G.InterleavedGroup, op: Op)
    requires x.Valid() && InRange(op)
    modifies x
    ensures x.Valid() && View(x.bytes) == Applied(View(old(x.bytes)), op)
  {
    match op {
      case Set(pos, hash) => PerformSet(x, pos, hash);
      case Reset(pos) => PerformReset(x, pos);
      case Mark(hash) => PerformMark(x, hash);
    }
  }

  /** Any history of writes to two interleaved words does to the table's group what the table's operations do. */
  method Replay(x: G.InterleavedGroup, ops: seq<Op>)
    requires x.Valid() && forall i :: 0 <= i < |ops| ==> InRange(ops[i])
    modifies x
    ensures x.Valid() && View(x.bytes) == AllApplied(View(old(x.bytes)), ops)
  {
    var i := 0;
    while i < |ops|
      invariant i <= |ops| && x.Valid()
      invariant View(x.bytes) == AllApplied(View(old(x.bytes)), ops[..i])
    {
      assert ops[..i + 1][..i] == ops[..i];
      Perform(x, ops[i]);
      i := i + 1;
    }
    assert ops[..i] == ops;
  }
}
