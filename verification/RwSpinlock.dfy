/** The one-word reader/writer spin lock: interleavings of loads and compare-and-swaps by any number of callers. */
module RwSpinlock {
  import opened Counting

  const LOCKED_EXCLUSIVE := 0x8000_0000
  const WRITER_PENDING := 0x4000_0000
  const READER_COUNT_MASK := 0x3FFF_FFFF
  const WORD_SIZE := 0x1_0000_0000

  predicate LockedExclusive(st: nat) { st / LOCKED_EXCLUSIVE % 2 == 1 }

  predicate WriterPending(st: nat) { st / WRITER_PENDING % 2 == 1 }

  function ReaderCount(st: nat): nat { st % WRITER_PENDING }

  /** These are the bit tests of the 32-bit word. */
  lemma MasksAreArithmetic(b: bv32)
    ensures b & 0x8000_0000 != 0 <==> b / 0x8000_0000 % 2 == 1
    ensures b & 0x4000_0000 != 0 <==> b / 0x4000_0000 % 2 == 1
    ensures b & 0x3FFF_FFFF == b % 0x4000_0000
    ensures b & 0x4000_0000 == 0 ==> b | 0x4000_0000 == b + 0x4000_0000
  {
  }

  /** Where a caller stands: outside, inside an operation (with the value it loaded), or holding the lock. */
  datatype Pc =
    | Outside
    | TryLockShared(st: nat)
    | LockShared
    | LockSharedCas(st: nat)
    | HoldsShared
    | TryLock(st: nat)
    | Lock
    | LockCas(st: nat)
    | PendingCas(st: nat)
    | HoldsExclusive

  datatype State = State(word: nat, pcs: seq<Pc>)

  /** The operations that acquire the lock. */
  datatype Call = TryShared | Share | TryExclusive | Exclude

  /** The first action of an operation: `try_` operations load at once and may give up at once. */
  function Begun(call: Call, word: nat): Pc {
    match call
    case TryShared => if word < READER_COUNT_MASK then TryLockShared(word) else Outside
    case Share => LockShared
    case TryExclusive => if !LockedExclusive(word) && ReaderCount(word) == 0 then TryLock(word) else Outside
    case Exclude => Lock
  }

  /** One atomic action of a caller: (word, pc) to (word', pc'). Weak compare-and-swap may fail at will. */
  ghost predicate Acts(word: nat, pc: Pc, word': nat, pc': Pc) {
    match pc
    case Outside => word' == word && exists call :: pc' == Begun(call, word)
    case TryLockShared(st) =>
      if word == st then word' == st + 1 && pc' == HoldsShared
      else word' == word && pc' == Outside
    case LockShared =>
      word' == word && pc' == if word < READER_COUNT_MASK then LockSharedCas(word) else LockShared
    case LockSharedCas(st) =>
      || (word == st && word' == st + 1 && pc' == HoldsShared)
      || (word' == word && pc' == LockShared)
    case HoldsShared => word' == (word + WORD_SIZE - 1) % WORD_SIZE && pc' == Outside
    case TryLock(st) =>
      if word == st then word' == LOCKED_EXCLUSIVE && pc' == HoldsExclusive
      else word' == word && pc' == Outside
    case Lock =>
      && word' == word
      && pc' == if LockedExclusive(word) then Lock
                else if ReaderCount(word) == 0 then LockCas(word)
                else if WriterPending(word) then Lock
                else PendingCas(word)
    case LockCas(st) =>
      || (word == st && word' == LOCKED_EXCLUSIVE && pc' == HoldsExclusive)
      || (word' == word && pc' == Lock)
    case PendingCas(st) =>
      || (word == st && word' == st + WRITER_PENDING && pc' == Lock)
      || (word' == word && pc' == Lock)
    case HoldsExclusive => word' == 0 && pc' == Outside
  }

  ghost predicate Step(s: State, t: nat, s': State) {
    && t < |s.pcs| == |s'.pcs|
    && s'.pcs == s.pcs[t := s'.pcs[t]]
    && Acts(s.word, s.pcs[t], s'.word, s'.pcs[t])
  }

  ghost predicate Next(s: State, s': State) {
    exists t: nat :: t < |s.pcs| && Step(s, t, s')
  }

  ghost predicate IsRun(run: seq<State>) {
    && |run| > 0
    && run[0].word == 0
    && (forall t :: 0 <= t < |run[0].pcs| ==> run[0].pcs[t] == Outside)
    && forall i :: 0 <= i < |run| - 1 ==> Next(run[i], run[i + 1])
  }

  // ----- Invariant -----

  function Reads(pc: Pc): int { if pc.HoldsShared? then 1 else 0 }

  function Writes(pc: Pc): int { if pc.HoldsExclusive? then 1 else 0 }

  predicate InsideLock(pc: Pc) { pc.Lock? || pc.LockCas? || pc.PendingCas? }

  /** What a caller knows about the value it loaded. */
  predicate Loaded(pc: Pc) {
    match pc
    case TryLockShared(st) => st < READER_COUNT_MASK
    case LockSharedCas(st) => st < READER_COUNT_MASK
    case TryLock(st) => st == 0 || st == WRITER_PENDING
    case LockCas(st) => st == 0 || st == WRITER_PENDING
    case PendingCas(st) => 0 < st < WRITER_PENDING
    case _ => true
  }

  /** The word as a function of who holds the lock, leaving open only the pending bit. */
  ghost predicate WordMeans(word: nat, readers: int, writers: int) {
    || (writers == 0 && 0 <= readers <= READER_COUNT_MASK
        && (word == readers || word == readers + WRITER_PENDING))
    || (writers == 1 && readers == 0 && word == LOCKED_EXCLUSIVE)
  }

  ghost predicate Inv(s: State) {
    && WordMeans(s.word, Total(s.pcs, Reads), Total(s.pcs, Writes))
    && (forall t :: 0 <= t < |s.pcs| ==> Loaded(s.pcs[t]))
    && (WriterPending(s.word) ==> exists t :: 0 <= t < |s.pcs| && InsideLock(s.pcs[t]))
  }

  /** What the bit tests say of such a word. */
  lemma WordDecodes(word: nat, readers: int, writers: int)
    requires WordMeans(word, readers, writers)
    ensures word <= LOCKED_EXCLUSIVE && ReaderCount(word) == readers
    ensures LockedExclusive(word) <==> writers == 1
    ensures WriterPending(word) <==> writers == 0 && word == readers + WRITER_PENDING
  {
  }

  /** The lock word of one action, for a caller that is among the counted ones. */
  lemma ActKeepsWord(word: nat, pc: Pc, word': nat, pc': Pc, readers: int, writers: int)
    requires Acts(word, pc, word', pc') && Loaded(pc) && WordMeans(word, readers, writers)
    requires Reads(pc) <= readers && Writes(pc) <= writers
    ensures WordMeans(word', readers - Reads(pc) + Reads(pc'), writers - Writes(pc) + Writes(pc'))
    ensures Loaded(pc')
  {
  }

  /** Only a caller inside `lock` sets the pending bit, and it leaves `lock` only by clearing it. */
  lemma ActKeepsPending(word: nat, pc: Pc, word': nat, pc': Pc)
    requires Acts(word, pc, word', pc') && Loaded(pc) && word <= LOCKED_EXCLUSIVE
    requires pc.HoldsShared? ==> ReaderCount(word) > 0
    ensures WriterPending(word') ==> InsideLock(pc') || (WriterPending(word) && !InsideLock(pc))
  {
  }

  lemma StepKeepsInv(s: State, t: nat, s': State)
    requires Inv(s) && Step(s, t, s')
    ensures Inv(s')
  {
    var pc, pc' := s.pcs[t], s'.pcs[t];
    TotalUpdate(s.pcs, Reads, t, pc');
    TotalUpdate(s.pcs, Writes, t, pc');
    TotalCovers(s.pcs, Reads, t);
    TotalCovers(s.pcs, Writes, t);
    ActKeepsWord(s.word, pc, s'.word, pc', Total(s.pcs, Reads), Total(s.pcs, Writes));
    ActKeepsPending(s.word, pc, s'.word, pc');
    if WriterPending(s'.word) && !InsideLock(pc') {
      var u :| 0 <= u < |s.pcs| && InsideLock(s.pcs[u]);
      assert s'.pcs[u] == s.pcs[u];
    }
  }

  lemma {:induction false} RunInv(run: seq<State>, i: nat)
    requires IsRun(run) && i < |run|
    ensures Inv(run[i])
  {
    if i == 0 {
      TotalZero(run[0].pcs, Reads);
      TotalZero(run[0].pcs, Writes);
    } else {
      RunInv(run, i - 1);
      assert Next(run[i - 1], run[i - 1 + 1]);
      var t: nat :| t < |run[i - 1].pcs| && Step(run[i - 1], t, run[i]);
      StepKeepsInv(run[i - 1], t, run[i]);
    }
  }

  // ----- Safety over runs -----

  /** Total of a 0/1 weight counts at least every two callers that carry it. */
  lemma {:induction false} TotalCoversTwo(pcs: seq<Pc>, w: Pc -> int, a: nat, b: nat)
    requires a < b < |pcs| && forall pc :: w(pc) >= 0
    ensures Total(pcs, w) >= w(pcs[a]) + w(pcs[b])
  {
    var n := |pcs| - 1;
    if b == n {
      TotalCovers(pcs[..n], w, a);
    } else {
      TotalCoversTwo(pcs[..n], w, a, b);
    }
  }

  /** A holder of the exclusive lock is alone, and then the word is exactly 0x80000000. */
  lemma WriterExcludesAll(run: seq<State>, i: nat, t: nat, u: nat)
    requires IsRun(run) && i < |run| && t < |run[i].pcs| && u < |run[i].pcs| && t != u
    requires run[i].pcs[t].HoldsExclusive?
    ensures !run[i].pcs[u].HoldsExclusive? && !run[i].pcs[u].HoldsShared?
    ensures run[i].word == LOCKED_EXCLUSIVE
  {
    RunInv(run, i);
    var pcs := run[i].pcs;
    TotalCovers(pcs, Writes, t);
    TotalCovers(pcs, Reads, u);
    TotalCoversTwo(pcs, Writes, if t < u then t else u, if t < u then u else t);
  }

  /** Unless locked exclusively, the low 30 bits are the number of readers and bit 31 is clear. */
  lemma ReadersAreCounted(run: seq<State>, i: nat)
    requires IsRun(run) && i < |run|
    ensures run[i].word < WORD_SIZE
    ensures LockedExclusive(run[i].word) <==> Total(run[i].pcs, Writes) == 1
    ensures LockedExclusive(run[i].word) ==> run[i].word == LOCKED_EXCLUSIVE
    ensures ReaderCount(run[i].word) == Total(run[i].pcs, Reads) <= READER_COUNT_MASK
  {
    RunInv(run, i);
    WordDecodes(run[i].word, Total(run[i].pcs, Reads), Total(run[i].pcs, Writes));
  }

  /** A set pending bit means that some caller is still inside `lock`, so it will be cleared. */
  lemma PendingMeansLocking(run: seq<State>, i: nat)
    requires IsRun(run) && i < |run| && WriterPending(run[i].word)
    ensures exists t :: 0 <= t < |run[i].pcs| && InsideLock(run[i].pcs[t])
    ensures !LockedExclusive(run[i].word)
  {
    RunInv(run, i);
    WordDecodes(run[i].word, Total(run[i].pcs, Reads), Total(run[i].pcs, Writes));
  }

  /** While a writer is pending nobody becomes a reader, even with a value loaded before the bit was set. */
  lemma {:induction false} PendingKeepsReadersOut(run: seq<State>, i: nat, j: nat, t: nat)
    requires IsRun(run) && i <= j < |run| && t < |run[j].pcs|
    requires forall k :: i <= k <= j ==> WriterPending(run[k].word)
    requires run[j].pcs[t].HoldsShared?
    ensures t < |run[i].pcs| && run[i].pcs[t].HoldsShared?
  {
    if i < j {
      RunInv(run, j - 1);
      WordDecodes(run[j - 1].word, Total(run[j - 1].pcs, Reads), Total(run[j - 1].pcs, Writes));
      assert Next(run[j - 1], run[j - 1 + 1]);
      var u: nat :| u < |run[j - 1].pcs| && Step(run[j - 1], u, run[j]);
      assert run[j - 1].pcs[t].HoldsShared?;
      PendingKeepsReadersOut(run, i, j - 1, t);
    }
  }

  /** A release never makes the word wrap: it takes one reader off, or leaves the lock free. */
  lemma ReleaseUndoesAcquire(run: seq<State>, i: nat, t: nat)
    requires IsRun(run) && 0 < i < |run| && Step(run[i - 1], t, run[i])
    ensures run[i - 1].pcs[t].HoldsShared? ==>
              run[i - 1].word > 0 && run[i].word == run[i - 1].word - 1
              && (WriterPending(run[i].word) <==> WriterPending(run[i - 1].word))
    ensures run[i - 1].pcs[t].HoldsExclusive? ==>
              run[i].word == 0 && forall u :: 0 <= u < |run[i].pcs| ==>
                                                !run[i].pcs[u].HoldsShared? && !run[i].pcs[u].HoldsExclusive?
  {
    RunInv(run, i - 1);
    WordDecodes(run[i - 1].word, Total(run[i - 1].pcs, Reads), Total(run[i - 1].pcs, Writes));
    TotalCovers(run[i - 1].pcs, Reads, t);
    TotalCovers(run[i - 1].pcs, Writes, t);
    if run[i - 1].pcs[t].HoldsExclusive? {
      forall u | 0 <= u < |run[i].pcs|
        ensures !run[i].pcs[u].HoldsShared? && !run[i].pcs[u].HoldsExclusive?
      {
        if u != t {
          WriterExcludesAll(run, i - 1, t, u);
        }
      }
    }
  }

  /** Whenever the lock is free of holders, a caller inside `lock` has it after at most three own actions. */
  lemma FreeLockCanBeTaken(run: seq<State>, i: nat, t: nat) returns (a: State, b: State, c: State)
    requires IsRun(run) && i < |run| && t < |run[i].pcs| && InsideLock(run[i].pcs[t])
    requires forall u :: 0 <= u < |run[i].pcs| ==> !run[i].pcs[u].HoldsShared? && !run[i].pcs[u].HoldsExclusive?
    ensures (a == run[i] && run[i].pcs[t].Lock?) || Step(run[i], t, a)
    ensures Step(a, t, b) && Step(b, t, c)
    ensures c.pcs[t].HoldsExclusive? && c.word == LOCKED_EXCLUSIVE
  {
    var s := run[i];
    RunInv(run, i);
    TotalZero(s.pcs, Reads);
    TotalZero(s.pcs, Writes);
    a := s.(pcs := s.pcs[t := Lock]);
    b := a.(pcs := a.pcs[t := LockCas(s.word)]);
    c := State(LOCKED_EXCLUSIVE, b.pcs[t := HoldsExclusive]);
    assert a.pcs == s.pcs[t := a.pcs[t]] && b.pcs == a.pcs[t := b.pcs[t]] && c.pcs == b.pcs[t := c.pcs[t]];
  }

  // ----- What a caller can do -----

  ghost predicate HeldExclusively(s: State) {
    exists u :: 0 <= u < |s.pcs| && s.pcs[u].HoldsExclusive?
  }

  ghost predicate HeldShared(s: State) {
    exists u :: 0 <= u < |s.pcs| && s.pcs[u].HoldsShared?
  }

  /** Who holds the lock, in numbers. */
  lemma HoldersCounted(run: seq<State>, i: nat)
    requires IsRun(run) && i < |run|
    ensures HeldExclusively(run[i]) <==> Total(run[i].pcs, Writes) == 1
    ensures HeldShared(run[i]) <==> Total(run[i].pcs, Reads) > 0
    ensures Inv(run[i])
  {
    RunInv(run, i);
    var pcs := run[i].pcs;
    if u :| 0 <= u < |pcs| && pcs[u].HoldsExclusive? {
      TotalCovers(pcs, Writes, u);
    } else {
      TotalZero(pcs, Writes);
    }
    if u :| 0 <= u < |pcs| && pcs[u].HoldsShared? {
      TotalCovers(pcs, Reads, u);
    } else {
      TotalZero(pcs, Reads);
    }
  }

  /** The lock admits one more reader: no writer has it or waits for it, and there is room in the count. */
  ghost predicate AdmitsReader(s: State) {
    !HeldExclusively(s) && !WriterPending(s.word) && Total(s.pcs, Reads) < READER_COUNT_MASK
  }

  ghost predicate AdmitsWriter(s: State) {
    !HeldExclusively(s) && !HeldShared(s)
  }

  lemma AdmitsReaderWord(run: seq<State>, i: nat)
    requires IsRun(run) && i < |run|
    ensures AdmitsReader(run[i]) <==> run[i].word < READER_COUNT_MASK
  {
    HoldersCounted(run, i);
    WordDecodes(run[i].word, Total(run[i].pcs, Reads), Total(run[i].pcs, Writes));
  }

  lemma AdmitsWriterWord(run: seq<State>, i: nat)
    requires IsRun(run) && i < |run|
    ensures AdmitsWriter(run[i]) <==> !LockedExclusive(run[i].word) && ReaderCount(run[i].word) == 0
  {
    HoldersCounted(run, i);
    WordDecodes(run[i].word, Total(run[i].pcs, Reads), Total(run[i].pcs, Writes));
  }

  /** Caller `t` makes the move from `pc` to `pc'`, alone. */
  function Moved(s: State, t: nat, word: nat, pc: Pc): State
    requires t < |s.pcs|
  {
    State(word, s.pcs[t := pc])
  }

  lemma MovedIsStep(s: State, t: nat, word: nat, pc: Pc)
    requires t < |s.pcs| && Acts(s.word, s.pcs[t], word, pc)
    ensures Step(s, t, Moved(s, t, word, pc))
  {
  }

  /** Any caller may begin any operation. */
  lemma CanBegin(s: State, t: nat, call: Call)
    requires t < |s.pcs| && s.pcs[t] == Outside
    ensures Step(s, t, Moved(s, t, s.word, Begun(call, s.word)))
  {
    MovedIsStep(s, t, s.word, Begun(call, s.word));
  }

  /** `try_lock_shared`, undisturbed, gives up at once exactly if the lock does not admit a reader; else it must succeed. */
  lemma TrySharedIsExact(run: seq<State>, i: nat, t: nat) returns (a: State, b: State)
    requires IsRun(run) && i < |run| && t < |run[i].pcs| && run[i].pcs[t] == Outside
    ensures a == Moved(run[i], t, run[i].word, Begun(TryShared, run[i].word)) && Step(run[i], t, a)
    ensures !AdmitsReader(run[i]) ==> a == run[i]
    ensures AdmitsReader(run[i]) ==>
              && b == Moved(run[i], t, run[i].word + 1, HoldsShared)
              && Step(a, t, b) && forall c :: Step(a, t, c) ==> c == b
  {
    var s := run[i];
    AdmitsReaderWord(run, i);
    CanBegin(s, t, TryShared);
    a := Moved(s, t, s.word, Begun(TryShared, s.word));
    b := Moved(s, t, s.word + 1, HoldsShared);
    assert a.pcs[t := HoldsShared] == b.pcs;
    assert !AdmitsReader(s) ==> a.pcs == s.pcs;
  }

  /** The same for `try_lock`; a pending writer does not keep it out. */
  lemma TryExclusiveIsExact(run: seq<State>, i: nat, t: nat) returns (a: State, b: State)
    requires IsRun(run) && i < |run| && t < |run[i].pcs| && run[i].pcs[t] == Outside
    ensures a == Moved(run[i], t, run[i].word, Begun(TryExclusive, run[i].word)) && Step(run[i], t, a)
    ensures !AdmitsWriter(run[i]) ==> a == run[i]
    ensures AdmitsWriter(run[i]) ==>
              && b == Moved(run[i], t, LOCKED_EXCLUSIVE, HoldsExclusive)
              && Step(a, t, b) && forall c :: Step(a, t, c) ==> c == b
  {
    var s := run[i];
    AdmitsWriterWord(run, i);
    CanBegin(s, t, TryExclusive);
    a := Moved(s, t, s.word, Begun(TryExclusive, s.word));
    b := Moved(s, t, LOCKED_EXCLUSIVE, HoldsExclusive);
    assert a.pcs[t := HoldsExclusive] == b.pcs;
    assert !AdmitsWriter(s) ==> a.pcs == s.pcs;
  }

  /** Whenever the lock admits a reader, a caller inside `lock_shared` has it after two own actions. */
  lemma SharedLockCanBeTaken(run: seq<State>, i: nat, t: nat) returns (a: State, b: State)
    requires IsRun(run) && i < |run| && t < |run[i].pcs| && run[i].pcs[t].LockShared? && AdmitsReader(run[i])
    ensures Step(run[i], t, a) && Step(a, t, b)
    ensures b == Moved(run[i], t, run[i].word + 1, HoldsShared)
  {
    var s := run[i];
    AdmitsReaderWord(run, i);
    a := Moved(s, t, s.word, LockSharedCas(s.word));
    b := Moved(s, t, s.word + 1, HoldsShared);
    assert a.pcs[t := HoldsShared] == b.pcs;
  }

  /** While readers hold the lock, a caller inside `lock` can set the pending bit, which keeps further readers out. */
  lemma WriterCanAnnounce(run: seq<State>, i: nat, t: nat) returns (a: State, b: State)
    requires IsRun(run) && i < |run| && t < |run[i].pcs| && run[i].pcs[t].Lock?
    requires HeldShared(run[i]) && !WriterPending(run[i].word)
    ensures Step(run[i], t, a) && Step(a, t, b)
    ensures b == Moved(run[i], t, run[i].word + WRITER_PENDING, Lock) && WriterPending(b.word)
  {
    var s := run[i];
    HoldersCounted(run, i);
    WordDecodes(s.word, Total(s.pcs, Reads), Total(s.pcs, Writes));
    a := Moved(s, t, s.word, PendingCas(s.word));
    b := Moved(s, t, s.word + WRITER_PENDING, Lock);
    assert a.pcs[t := Lock] == b.pcs;
  }

  /** A holder can always release. */
  lemma HolderCanRelease(run: seq<State>, i: nat, t: nat) returns (a: State)
    requires IsRun(run) && i < |run| && t < |run[i].pcs| && (run[i].pcs[t].HoldsShared? || run[i].pcs[t].HoldsExclusive?)
    ensures Step(run[i], t, a) && a.pcs == run[i].pcs[t := Outside]
    ensures a.word == if run[i].pcs[t].HoldsShared? then run[i].word - 1 else 0
  {
    var s := run[i];
    RunInv(run, i);
    TotalCovers(s.pcs, Reads, t);
    a := Moved(s, t, if s.pcs[t].HoldsShared? then s.word - 1 else 0, Outside);
  }

  /** Nobody is ever stuck: whoever is inside an operation has a next action, and a failed compare-and-swap tries again. */
  lemma EveryoneCanAct(s: State, t: nat) returns (a: State)
    requires t < |s.pcs|
    ensures Step(s, t, a)
    ensures a.pcs[t] == Outside ==> s.pcs[t].Outside? || s.pcs[t].TryLockShared? || s.pcs[t].TryLock?
                                    || s.pcs[t].HoldsShared? || s.pcs[t].HoldsExclusive?
  {
    match s.pcs[t]
    case Outside => a := Moved(s, t, s.word, Begun(Share, s.word));
    case TryLockShared(st) =>
      a := if s.word == st then Moved(s, t, st + 1, HoldsShared) else Moved(s, t, s.word, Outside);
    case LockShared =>
      a := Moved(s, t, s.word, if s.word < READER_COUNT_MASK then LockSharedCas(s.word) else LockShared);
    case LockSharedCas(_) => a := Moved(s, t, s.word, LockShared);
    case HoldsShared => a := Moved(s, t, (s.word + WORD_SIZE - 1) % WORD_SIZE, Outside);
    case TryLock(st) =>
      a := if s.word == st then Moved(s, t, LOCKED_EXCLUSIVE, HoldsExclusive) else Moved(s, t, s.word, Outside);
    case Lock =>
      a := Moved(s, t, s.word, if LockedExclusive(s.word) then Lock
                               else if ReaderCount(s.word) == 0 then LockCas(s.word)
                               else if WriterPending(s.word) then Lock
                               else PendingCas(s.word));
    case LockCas(_) => a := Moved(s, t, s.word, Lock);
    case PendingCas(_) => a := Moved(s, t, s.word, Lock);
    case HoldsExclusive => a := Moved(s, t, 0, Outside);
  }
}
