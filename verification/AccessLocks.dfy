/** Two-level locking of the concurrent tables: shared and exclusive access to a table, and one group lock at a time. */
module AccessLocks {
  import opened Wrappers

  /** Mutexes of a table's multimutex. */
  const MUTEXES := 128

  /** Tables are numbered by address. */
  datatype Lock = TableMutex(table: nat, index: nat) | GroupMutex(table: nat, group: nat)

  datatype Mode = Read | Write

  /**
   * Where a thread stands. Exclusive access to `tables` takes all their mutexes, one by one, `k` so far; they are
   * released the other way round. Shared access takes the mutex of the thread's id.
   */
  datatype Pc =
    | Idle
    | EnterShared(table: nat, id: nat)
    | Shared(table: nat, id: nat)
    | EnterGroup(table: nat, id: nat, group: nat, mode: Mode)
    | InGroup(table: nat, id: nat, group: nat, mode: Mode)
    | Acquire(tables: seq<nat>, k: nat)
    | Release(tables: seq<nat>, k: nat)

  /** The order in which a scoped lock on two tables takes them; the same table is taken once. */
  function BilockOrder(x: nat, y: nat): (r: seq<nat>)
    ensures Ascending(r)
    ensures forall t :: t in r <==> t == x || t == y
  {
    var first := if x < y then x else y;
    if x == y then [first] else [first, if x < y then y else x]
  }

  predicate Ascending(tables: seq<nat>) {
    forall i, j :: 0 <= i < j < |tables| ==> tables[i] < tables[j]
  }

  predicate Valid(pc: Pc, tables: nat) {
    match pc
    case Idle => true
    case Acquire(ts, k) => Ascending(ts) && (forall t <- ts :: t < tables) && k <= MUTEXES * |ts|
    case Release(ts, k) => Ascending(ts) && (forall t <- ts :: t < tables) && k <= MUTEXES * |ts|
    case _ => pc.table < tables && pc.id < MUTEXES
  }

  /** The mutex taken as number `k` by exclusive access. */
  function Nth(ts: seq<nat>, k: nat): Lock
    requires k < MUTEXES * |ts|
  {
    TableMutex(ts[k / MUTEXES], k % MUTEXES)
  }

  ghost predicate HoldsFirst(ts: seq<nat>, k: nat, l: Lock)
    requires k <= MUTEXES * |ts|
  {
    exists j: nat :: j < k && Nth(ts, j) == l
  }

  ghost function Holds(pc: Pc, tables: nat, l: Lock): Option<Mode>
    requires Valid(pc, tables)
  {
    match pc
    case Shared(c, id) => if l == TableMutex(c, id) then Some(Read) else None
    case EnterGroup(c, id, _, _) => if l == TableMutex(c, id) then Some(Read) else None
    case InGroup(c, id, g, m) =>
      if l == TableMutex(c, id) then Some(Read) else if l == GroupMutex(c, g) then Some(m) else None
    case Acquire(ts, k) => if HoldsFirst(ts, k, l) then Some(Write) else None
    case Release(ts, k) => if HoldsFirst(ts, k, l) then Some(Write) else None
    case _ => None
  }

  function Wants(pc: Pc, tables: nat): Option<(Lock, Mode)>
    requires Valid(pc, tables)
  {
    match pc
    case EnterShared(c, id) => Some((TableMutex(c, id), Read))
    case EnterGroup(c, _, g, m) => Some((GroupMutex(c, g), m))
    case Acquire(ts, k) => if k < MUTEXES * |ts| then Some((Nth(ts, k), Write)) else None
    case _ => None
  }

  datatype State = State(tables: nat, pcs: seq<Pc>)

  ghost predicate AllValid(s: State) {
    forall t :: 0 <= t < |s.pcs| ==> Valid(s.pcs[t], s.tables)
  }

  predicate Conflict(held: Option<Mode>, wanted: Mode) {
    held.Some? && (held.value.Write? || wanted.Write?)
  }

  /** The mutex semantics: readers exclude a writer, a writer excludes everyone. */
  ghost predicate Granted(s: State, l: Lock, m: Mode)
    requires AllValid(s)
  {
    forall u :: 0 <= u < |s.pcs| ==> !Conflict(Holds(s.pcs[u], s.tables, l), m)
  }

  /** What a thread does next; entering a lock is subject to its being granted. */
  ghost predicate Moves(pc: Pc, tables: nat, pc': Pc) {
    match pc
    case Idle =>
      || (pc'.EnterShared? && Valid(pc', tables))
      || (exists c: nat :: c < tables && pc' == Acquire([c], 0))
      || (exists x: nat, y: nat :: x < tables && y < tables && pc' == Acquire(BilockOrder(x, y), 0))
    case EnterShared(c, id) => pc' == Shared(c, id)
    case Shared(c, id) => pc' == Idle || (pc'.EnterGroup? && pc'.table == c && pc'.id == id)
    case EnterGroup(c, id, g, m) => pc' == InGroup(c, id, g, m)
    case InGroup(c, id, _, _) => pc' == Shared(c, id)
    case Acquire(ts, k) => pc' == if k < MUTEXES * |ts| then Acquire(ts, k + 1) else Release(ts, k)
    case Release(ts, k) => pc' == if k > 0 then Release(ts, k - 1) else Idle
  }

  ghost predicate Step(s: State, t: nat, s': State)
    requires AllValid(s)
  {
    && t < |s.pcs| == |s'.pcs|
    && s' == s.(pcs := s.pcs[t := s'.pcs[t]])
    && Moves(s.pcs[t], s.tables, s'.pcs[t])
    && var w := Wants(s.pcs[t], s.tables);
       w.Some? ==> Granted(s, w.value.0, w.value.1)
  }

  ghost predicate Next(s: State, s': State) {
    AllValid(s) && exists t: nat :: t < |s.pcs| && Step(s, t, s')
  }

  ghost predicate IsRun(run: seq<State>) {
    && |run| > 0
    && (forall t :: 0 <= t < |run[0].pcs| ==> run[0].pcs[t] == Idle)
    && forall i :: 0 <= i < |run| - 1 ==> Next(run[i], run[i + 1])
  }

  // ----- Exclusion -----

  /** No thread holds a lock that another holds for writing. */
  ghost predicate Inv(s: State) {
    && AllValid(s)
    && forall t, u, l :: 0 <= t < |s.pcs| && 0 <= u < |s.pcs| && t != u ==>
                           !Excluded(s, t, u, l)
  }

  ghost predicate Excluded(s: State, t: nat, u: nat, l: Lock)
    requires AllValid(s) && t < |s.pcs| && u < |s.pcs|
  {
    Holds(s.pcs[t], s.tables, l) == Some(Write) && Holds(s.pcs[u], s.tables, l).Some?
  }

  lemma MovesKeepsValid(pc: Pc, tables: nat, pc': Pc)
    requires Valid(pc, tables) && Moves(pc, tables, pc')
    ensures Valid(pc', tables)
  {
    if pc.Idle? && pc'.Acquire? {
      if c: nat :| c < tables && pc' == Acquire([c], 0) {
      } else {
        var x: nat, y: nat :| x < tables && y < tables && pc' == Acquire(BilockOrder(x, y), 0);
      }
    }
  }

  /** A move takes at most the lock the thread was waiting for. */
  lemma MovesHolds(pc: Pc, tables: nat, pc': Pc, l: Lock)
    requires Valid(pc, tables) && Moves(pc, tables, pc') && Valid(pc', tables)
    requires Holds(pc', tables, l).Some?
    ensures Holds(pc', tables, l) == Holds(pc, tables, l)
         || Wants(pc, tables) == Some((l, Holds(pc', tables, l).value))
  {
    if pc'.Acquire? || pc'.Release? {
      var j: nat :| j < pc'.k && Nth(pc'.tables, j) == l;
      assert pc.Acquire? || pc.Release?;
      if j < pc.k {
        assert HoldsFirst(pc.tables, pc.k, l);
      }
    }
  }

  lemma StepKeepsInv(s: State, t: nat, s': State)
    requires Inv(s) && Step(s, t, s')
    ensures Inv(s')
  {
    MovesKeepsValid(s.pcs[t], s.tables, s'.pcs[t]);
    forall a, b, l | 0 <= a < |s.pcs| && 0 <= b < |s.pcs| && a != b ensures !Excluded(s', a, b, l) {
      assert !Excluded(s, a, b, l);
      if Holds(s'.pcs[t], s.tables, l).Some? {
        MovesHolds(s.pcs[t], s.tables, s'.pcs[t], l);
      }
    }
  }

  lemma {:induction false} RunInv(run: seq<State>, i: nat)
    requires IsRun(run) && i < |run|
    ensures Inv(run[i])
  {
    if i > 0 {
      RunInv(run, i - 1);
      assert Next(run[i - 1], run[i - 1 + 1]);
      var t: nat :| t < |run[i - 1].pcs| && Step(run[i - 1], t, run[i]);
      StepKeepsInv(run[i - 1], t, run[i]);
    }
  }

  /** Between the constructor and the destructor of an exclusive lock guard. */
  ghost predicate HasExclusive(pc: Pc, c: nat) {
    pc.Acquire? && c in pc.tables && pc.k == MUTEXES * |pc.tables|
  }

  ghost predicate HasShared(pc: Pc, c: nat) {
    (pc.Shared? || pc.EnterGroup? || pc.InGroup?) && pc.table == c
  }

  lemma ExclusiveHoldsAll(pc: Pc, tables: nat, c: nat, id: nat)
    requires Valid(pc, tables) && HasExclusive(pc, c) && id < MUTEXES
    ensures Holds(pc, tables, TableMutex(c, id)) == Some(Write)
  {
    var i :| 0 <= i < |pc.tables| && pc.tables[i] == c;
    assert Nth(pc.tables, MUTEXES * i + id) == TableMutex(c, id);
  }

  /** Exclusive access to a table excludes shared and exclusive access to it by any other thread. */
  lemma ExclusiveExcludesAll(run: seq<State>, i: nat, t: nat, u: nat, c: nat)
    requires IsRun(run) && i < |run| && t < |run[i].pcs| && u < |run[i].pcs| && t != u
    requires HasExclusive(run[i].pcs[t], c)
    ensures !HasShared(run[i].pcs[u], c) && !HasExclusive(run[i].pcs[u], c)
  {
    RunInv(run, i);
    var s := run[i];
    var id := if HasShared(s.pcs[u], c) then s.pcs[u].id else 0;
    ExclusiveHoldsAll(s.pcs[t], s.tables, c, id);
    assert !Excluded(s, t, u, TableMutex(c, id));
    if HasExclusive(s.pcs[u], c) {
      ExclusiveHoldsAll(s.pcs[u], s.tables, c, id);
    }
  }

  /** Access to a group for writing excludes access to that group by any other thread. */
  lemma GroupWriterIsAlone(run: seq<State>, i: nat, t: nat, u: nat)
    requires IsRun(run) && i < |run| && t < |run[i].pcs| && u < |run[i].pcs| && t != u
    requires run[i].pcs[t].InGroup? && run[i].pcs[t].mode.Write? && run[i].pcs[u].InGroup?
    ensures run[i].pcs[u].table != run[i].pcs[t].table || run[i].pcs[u].group != run[i].pcs[t].group
  {
    RunInv(run, i);
    var pc := run[i].pcs[t];
    assert !Excluded(run[i], t, u, GroupMutex(pc.table, pc.group));
  }

  // ----- No cyclic waiting -----

  /**
   * `t` waits for `u`: `u` holds the lock in a conflicting mode, or `u` wants to write it while `t` wants to read,
   * since a pending writer holds readers off.
   */
  ghost predicate WaitsFor(s: State, t: nat, u: nat)
    requires AllValid(s) && t < |s.pcs| && u < |s.pcs|
  {
    var w := Wants(s.pcs[t], s.tables);
    && w.Some?
    && (|| Conflict(Holds(s.pcs[u], s.tables, w.value.0), w.value.1)
        || (w.value.1.Read? && Wants(s.pcs[u], s.tables) == Some((w.value.0, Write))))
  }

  /** Mutexes rank by table and index; group locks rank above all of them. */
  function Rank(l: Lock, tables: nat): nat {
    match l
    case TableMutex(c, i) => MUTEXES * c + i
    case GroupMutex(_, _) => MUTEXES * tables
  }

  function Level(pc: Pc, tables: nat): nat
    requires Valid(pc, tables)
  {
    match Wants(pc, tables)
    case None => 2 * MUTEXES * tables + 2
    case Some((l, m)) => 2 * Rank(l, tables) + if m.Write? then 1 else 0
  }

  lemma NthAscends(ts: seq<nat>, j: nat, k: nat, tables: nat)
    requires Ascending(ts) && j < k < MUTEXES * |ts|
    ensures Rank(Nth(ts, j), tables) < Rank(Nth(ts, k), tables)
  {
    var a, b := j / MUTEXES, k / MUTEXES;
    if a < b {
      assert ts[a] + 1 <= ts[b];
    }
  }

  /** Whatever a thread waits for ranks above all it holds. */
  lemma HeldRanksBelowWanted(pc: Pc, tables: nat, l: Lock)
    requires Valid(pc, tables) && Holds(pc, tables, l).Some? && Wants(pc, tables).Some?
    ensures Rank(l, tables) < Rank(Wants(pc, tables).value.0, tables)
  {
    match pc
    case EnterGroup(c, id, _, _) =>
      assert c + 1 <= tables;
    case Acquire(ts, k) =>
      var j: nat :| j < k && Nth(ts, j) == l;
      NthAscends(ts, j, k, tables);
  }

  lemma WantedRankBound(pc: Pc, tables: nat)
    requires Valid(pc, tables) && Wants(pc, tables).Some?
    ensures Level(pc, tables) < 2 * MUTEXES * tables + 2
  {
    match pc
    case EnterShared(c, id) => assert c + 1 <= tables;
    case EnterGroup(_, _, _, _) =>
    case Acquire(ts, k) =>
      assert ts[k / MUTEXES] in ts;
      assert ts[k / MUTEXES] + 1 <= tables;
  }

  lemma WaitingRises(s: State, t: nat, u: nat)
    requires AllValid(s) && t < |s.pcs| && u < |s.pcs| && WaitsFor(s, t, u)
    ensures Level(s.pcs[t], s.tables) < Level(s.pcs[u], s.tables)
  {
    WantedRankBound(s.pcs[t], s.tables);
    var l := Wants(s.pcs[t], s.tables).value.0;
    if Holds(s.pcs[u], s.tables, l).Some? && Wants(s.pcs[u], s.tables).Some? {
      HeldRanksBelowWanted(s.pcs[u], s.tables, l);
    }
  }

  ghost predicate WaitPath(s: State, path: seq<nat>)
    requires AllValid(s)
  {
    && (forall i :: 0 <= i < |path| ==> path[i] < |s.pcs|)
    && forall i :: 0 <= i < |path| - 1 ==> WaitsFor(s, path[i], path[i + 1])
  }

  lemma {:induction false} PathRises(s: State, path: seq<nat>)
    requires AllValid(s) && WaitPath(s, path) && |path| > 1
    ensures Level(s.pcs[path[0]], s.tables) < Level(s.pcs[path[|path| - 1]], s.tables)
  {
    var n := |path| - 1;
    assert WaitsFor(s, path[n - 1], path[n - 1 + 1]);
    WaitingRises(s, path[n - 1], path[n]);
    if n > 1 {
      PathRises(s, path[..n]);
    }
  }

  /** In no reachable state does a thread wait, through any number of others, for itself. */
  lemma NoCyclicWait(run: seq<State>, i: nat, path: seq<nat>)
    requires IsRun(run) && i < |run|
    ensures AllValid(run[i])
    ensures WaitPath(run[i], path) && |path| > 1 ==> path[0] != path[|path| - 1]
  {
    RunInv(run, i);
    if WaitPath(run[i], path) && |path| > 1 {
      PathRises(run[i], path);
    }
  }

  /** Every chain of waiting ends with a thread that waits for nobody. */
  lemma {:induction false} ChainEnds(s: State, t: nat) returns (u: nat)
    requires AllValid(s) && t < |s.pcs| && s.pcs[t] != Idle
    ensures u < |s.pcs| && s.pcs[u] != Idle
    ensures forall v :: 0 <= v < |s.pcs| ==> !WaitsFor(s, u, v)
    decreases 2 * MUTEXES * s.tables + 2 - Level(s.pcs[t], s.tables)
  {
    if v :| 0 <= v < |s.pcs| && WaitsFor(s, t, v) {
      WaitingRises(s, t, v);
      if Wants(s.pcs[v], s.tables).Some? {
        WantedRankBound(s.pcs[v], s.tables);
      }
      u := ChainEnds(s, v);
    } else {
      u := t;
    }
  }

  /** A next move of a thread that is inside an operation. */
  function Forward(pc: Pc): Pc {
    match pc
    case EnterShared(c, id) => Shared(c, id)
    case EnterGroup(c, id, g, m) => InGroup(c, id, g, m)
    case InGroup(c, id, _, _) => Shared(c, id)
    case Acquire(ts, k) => if k < MUTEXES * |ts| then Acquire(ts, k + 1) else Release(ts, k)
    case Release(ts, k) => if k > 0 then Release(ts, k - 1) else Idle
    case _ => Idle
  }

  /** No deadlock: while some thread is inside an operation, one of those can make its next move. */
  lemma SomeThreadCanMove(run: seq<State>, i: nat, t: nat) returns (u: nat, s': State)
    requires IsRun(run) && i < |run| && t < |run[i].pcs| && run[i].pcs[t] != Idle
    ensures AllValid(run[i]) && u < |run[i].pcs| && run[i].pcs[u] != Idle
    ensures Step(run[i], u, s') && s' != run[i]
  {
    RunInv(run, i);
    var s := run[i];
    u := ChainEnds(s, t);
    var pc' := Forward(s.pcs[u]);
    s' := s.(pcs := s.pcs[u := pc']);
    assert s'.pcs[u] != s.pcs[u];
    var w := Wants(s.pcs[u], s.tables);
    if w.Some? {
      forall v | 0 <= v < |s.pcs| ensures !Conflict(Holds(s.pcs[v], s.tables, w.value.0), w.value.1) {
        assert !WaitsFor(s, u, v);
      }
    }
  }

  // ----- One lock at a time -----

  /** The lock a thread gives up with a move to `pc'`, if any. */
  function GivesUp(pc: Pc, tables: nat, pc': Pc): Option<Lock>
    requires Valid(pc, tables)
  {
    match pc
    case Shared(c, id) => if pc'.Idle? then Some(TableMutex(c, id)) else None
    case InGroup(c, _, g, _) => Some(GroupMutex(c, g))
    case Release(ts, k) => if k > 0 then Some(Nth(ts, k - 1)) else None
    case _ => None
  }

  /** A move takes the one lock waited for, or gives up one lock held, or leaves all locks as they are. */
  lemma OneLockAtATime(pc: Pc, tables: nat, pc': Pc, l: Lock)
    requires Valid(pc, tables) && Moves(pc, tables, pc') && Valid(pc', tables)
    ensures Holds(pc', tables, l)
         == if Wants(pc, tables).Some? && Wants(pc, tables).value.0 == l then Some(Wants(pc, tables).value.1)
            else if GivesUp(pc, tables, pc') == Some(l) then None
            else Holds(pc, tables, l)
    ensures Wants(pc, tables).Some? ==> Holds(pc, tables, Wants(pc, tables).value.0).None?
    ensures GivesUp(pc, tables, pc').Some? ==> Holds(pc, tables, GivesUp(pc, tables, pc').value).Some?
  {
    if Wants(pc, tables).Some? && Holds(pc, tables, Wants(pc, tables).value.0).Some? {
      HeldRanksBelowWanted(pc, tables, Wants(pc, tables).value.0);
    }
    if pc.Acquire? && pc.k < MUTEXES * |pc.tables| {
      NextFirst(pc.tables, pc.k, l, tables);
    } else if pc.Release? && pc.k > 0 {
      NextFirst(pc.tables, pc.k - 1, l, tables);
      assert HoldsFirst(pc.tables, pc.k, Nth(pc.tables, pc.k - 1));
    }
  }

  /** The first `k + 1` mutexes are the first `k` and one more. */
  lemma NextFirst(ts: seq<nat>, k: nat, l: Lock, tables: nat)
    requires Ascending(ts) && k < MUTEXES * |ts|
    ensures HoldsFirst(ts, k + 1, l) <==> HoldsFirst(ts, k, l) || l == Nth(ts, k)
    ensures !HoldsFirst(ts, k, Nth(ts, k))
  {
    if j: nat :| j < k && Nth(ts, j) == Nth(ts, k) {
      NthAscends(ts, j, k, tables);
    }
    if HoldsFirst(ts, k, l) {
      var j: nat :| j < k && Nth(ts, j) == l;
      assert j < k + 1 && Nth(ts, j) == l;
    }
    if l == Nth(ts, k) {
      assert k < k + 1 && Nth(ts, k) == l;
    }
  }

  // ----- What is granted -----

  function Moved(s: State, t: nat, pc: Pc): State
    requires t < |s.pcs|
  {
    s.(pcs := s.pcs[t := pc])
  }

  /** A thread inside no operation can begin any: shared or exclusive access to a table, or exclusive access to two. */
  lemma AnyOperationCanBegin(s: State, t: nat, x: nat, y: nat, id: nat)
    requires AllValid(s) && t < |s.pcs| && s.pcs[t] == Idle && x < s.tables && y < s.tables && id < MUTEXES
    ensures Step(s, t, Moved(s, t, EnterShared(x, id)))
    ensures Step(s, t, Moved(s, t, Acquire([x], 0)))
    ensures Step(s, t, Moved(s, t, Acquire(BilockOrder(x, y), 0)))
  {
  }

  /** A thread with shared access can give it up, or ask for any group in either mode; inside a group it can leave. */
  lemma SharedCanGoOn(s: State, t: nat, g: nat, m: Mode)
    requires AllValid(s) && t < |s.pcs|
    ensures s.pcs[t].Shared? ==>
              && Step(s, t, Moved(s, t, Idle))
              && Step(s, t, Moved(s, t, EnterGroup(s.pcs[t].table, s.pcs[t].id, g, m)))
    ensures s.pcs[t].InGroup? ==> Step(s, t, Moved(s, t, Shared(s.pcs[t].table, s.pcs[t].id)))
  {
  }

  /** The thread takes part, somehow, in exclusive access to the table. */
  predicate UsesExclusively(pc: Pc, c: nat) {
    (pc.Acquire? || pc.Release?) && c in pc.tables
  }

  lemma OnlyExclusiveWrites(pc: Pc, tables: nat, c: nat, id: nat)
    requires Valid(pc, tables) && Holds(pc, tables, TableMutex(c, id)) == Some(Write)
    ensures UsesExclusively(pc, c)
  {
    var j: nat :| j < pc.k && Nth(pc.tables, j) == TableMutex(c, id);
    assert pc.tables[j / MUTEXES] == c;
  }

  /** Shared access is granted unless some thread is about to have, has or gives up exclusive access to the table. */
  lemma SharedAccessIsGranted(s: State, t: nat)
    requires AllValid(s) && t < |s.pcs| && s.pcs[t].EnterShared?
    requires forall u :: 0 <= u < |s.pcs| ==> !UsesExclusively(s.pcs[u], s.pcs[t].table)
    ensures Step(s, t, Moved(s, t, Shared(s.pcs[t].table, s.pcs[t].id)))
  {
    var l := TableMutex(s.pcs[t].table, s.pcs[t].id);
    forall u | 0 <= u < |s.pcs| ensures !Conflict(Holds(s.pcs[u], s.tables, l), Read) {
      if Holds(s.pcs[u], s.tables, l) == Some(Write) {
        OnlyExclusiveWrites(s.pcs[u], s.tables, s.pcs[t].table, s.pcs[t].id);
      }
    }
  }

  /** Nobody is in the group, or everybody there, and whoever asks, shares it. */
  predicate GroupIsFree(s: State, c: nat, g: nat, m: Mode) {
    forall u :: 0 <= u < |s.pcs| && s.pcs[u].InGroup? && s.pcs[u].table == c && s.pcs[u].group == g ==>
                  m == Read && s.pcs[u].mode == Read
  }

  /** Access to a group is granted exactly when nobody is in it, or all want to share it. */
  lemma GroupAccessIsGranted(s: State, t: nat)
    requires AllValid(s) && t < |s.pcs| && s.pcs[t].EnterGroup?
    ensures var EnterGroup(c, id, g, m) := s.pcs[t];
            Step(s, t, Moved(s, t, InGroup(c, id, g, m))) <==> GroupIsFree(s, c, g, m)
  {
    var EnterGroup(c, id, g, m) := s.pcs[t];
    forall u | 0 <= u < |s.pcs|
      ensures Holds(s.pcs[u], s.tables, GroupMutex(c, g))
           == if s.pcs[u].InGroup? && s.pcs[u].table == c && s.pcs[u].group == g then Some(s.pcs[u].mode) else None
    {
      GroupMutexHeld(s.pcs[u], s.tables, c, g);
    }
    assert Wants(s.pcs[t], s.tables) == Some((GroupMutex(c, g), m));
    assert Step(s, t, Moved(s, t, InGroup(c, id, g, m))) <==> Granted(s, GroupMutex(c, g), m);
  }

  lemma GroupMutexHeld(pc: Pc, tables: nat, c: nat, g: nat)
    requires Valid(pc, tables)
    ensures Holds(pc, tables, GroupMutex(c, g))
         == if pc.InGroup? && pc.table == c && pc.group == g then Some(pc.mode) else None
  {
  }

  /** Each mutex of exclusive access is granted when no other thread has or seeks access to one of the tables. */
  lemma ExclusiveAccessIsGranted(s: State, t: nat)
    requires AllValid(s) && t < |s.pcs| && s.pcs[t].Acquire?
    requires forall u, c :: 0 <= u < |s.pcs| && u != t && c in s.pcs[t].tables ==>
                              !HasShared(s.pcs[u], c) && !UsesExclusively(s.pcs[u], c)
    ensures var Acquire(ts, k) := s.pcs[t];
            Step(s, t, Moved(s, t, if k < MUTEXES * |ts| then Acquire(ts, k + 1) else Release(ts, k)))
  {
    var Acquire(ts, k) := s.pcs[t];
    if k < MUTEXES * |ts| {
      var l := Nth(ts, k);
      assert ts[k / MUTEXES] in ts;
      forall u | 0 <= u < |s.pcs| ensures Holds(s.pcs[u], s.tables, l).None? {
        if Holds(s.pcs[u], s.tables, l).Some? {
          if u == t {
            HeldRanksBelowWanted(s.pcs[t], s.tables, l);
          } else {
            MutexHeld(s.pcs[u], s.tables, l.table, l.index);
          }
        }
      }
    }
  }

  lemma MutexHeld(pc: Pc, tables: nat, c: nat, id: nat)
    requires Valid(pc, tables) && Holds(pc, tables, TableMutex(c, id)).Some?
    ensures HasShared(pc, c) || UsesExclusively(pc, c)
  {
    if pc.Acquire? || pc.Release? {
      OnlyExclusiveWrites(pc, tables, c, id);
    }
  }

  /** Giving up exclusive access goes on to the end. */
  lemma ReleaseGoesOn(s: State, t: nat)
    requires AllValid(s) && t < |s.pcs| && s.pcs[t].Release?
    ensures var Release(ts, k) := s.pcs[t];
            Step(s, t, Moved(s, t, if k > 0 then Release(ts, k - 1) else Idle))
  {
  }
}
