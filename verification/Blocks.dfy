/** Splitting an index range into blocks, and the parallel loop built on it. */
module Blocks {
  import opened Counting

  function Min(a: int, b: int): int { if a < b then a else b }

  class Blocks {
    var firstIndex: int
    var indexAfterLast: int
    var numBlocks: nat
    var blockSize: nat
    var remainder: nat

    /** The number of blocks is at least 1 unless the range is empty; it is the divisor of the range's length. */
    constructor (first: int, after: int, blocks: nat)
      requires first < after ==> blocks >= 1
      ensures Valid() && firstIndex == first && indexAfterLast == after
      ensures numBlocks == if after <= first then 0 else Min(blocks, after - first)
    {
      firstIndex, indexAfterLast := first, after;
      var count, size, rest := 0, 0, 0;
      if after > first {
        var total := after - first;
        count := Min(blocks, total);
        QuotientPositive(total, count);
        size := total / count;
        rest := total % count;
        if size == 0 {
          size := 1;
          count := if total > 1 then total else 1;
        }
      }
      numBlocks, blockSize, remainder := count, size, rest;
    }

    ghost predicate Valid()
      reads this
    {
      if indexAfterLast <= firstIndex then numBlocks == 0
      else
        && numBlocks > 0
        && blockSize > 0
        && remainder < numBlocks
        && indexAfterLast - firstIndex == numBlocks * blockSize + remainder
    }

    function Start(block: nat): int
      reads this
    {
      firstIndex + block * blockSize + if block < remainder then block else remainder
    }

    function End(block: nat): int
      reads this
    {
      if block == numBlocks - 1 then indexAfterLast else Start(block + 1)
    }

    /** The blocks are non-empty, follow each other without gaps from one end of the range to the other. */
    lemma BlocksAreConsecutive(b: nat)
      requires Valid() && b < numBlocks
      ensures b == 0 ==> Start(b) == firstIndex
      ensures b + 1 < numBlocks ==> End(b) == Start(b + 1)
      ensures b + 1 == numBlocks ==> End(b) == indexAfterLast
      ensures End(b) - Start(b) == blockSize + if b < remainder then 1 else 0
      ensures Start(b) < End(b)
    {
      assert (b + 1) * blockSize == b * blockSize + blockSize;
    }

    lemma SizesDifferByAtMostOne(a: nat, b: nat)
      requires Valid() && a < numBlocks && b < numBlocks
      ensures -1 <= (End(a) - Start(a)) - (End(b) - Start(b)) <= 1
    {
      BlocksAreConsecutive(a);
      BlocksAreConsecutive(b);
    }

    lemma {:induction false} StartsAscend(a: nat, b: nat)
      requires Valid() && a < b < numBlocks
      ensures End(a) <= Start(b)
      decreases b - a
    {
      BlocksAreConsecutive(a);
      if a + 1 < b {
        StartsAscend(a + 1, b);
        BlocksAreConsecutive(a + 1);
      }
    }

    /** The block that holds index `i`, searched for from block `b` down. */
    lemma {:induction false} BlockFrom(i: int, b: nat) returns (r: nat)
      requires Valid() && b < numBlocks && firstIndex <= i < End(b)
      ensures r <= b && Start(r) <= i < End(r)
    {
      BlocksAreConsecutive(b);
      if Start(b) <= i {
        r := b;
      } else {
        BlocksAreConsecutive(b - 1);
        r := BlockFrom(i, b - 1);
      }
    }

    /** Each index of the range is in exactly one block. */
    lemma IndexInOneBlock(i: int) returns (r: nat)
      requires Valid() && firstIndex <= i < indexAfterLast
      ensures r < numBlocks && Start(r) <= i < End(r)
      ensures forall b: nat :: b < numBlocks && Start(b) <= i < End(b) ==> b == r
    {
      BlocksAreConsecutive(numBlocks - 1);
      r := BlockFrom(i, numBlocks - 1);
      forall b: nat | b < numBlocks && Start(b) <= i < End(b) ensures b == r {
        if b < r {
          StartsAscend(b, r);
        } else if r < b {
          StartsAscend(r, b);
        }
      }
    }
  }

  lemma QuotientPositive(total: nat, n: nat)
    requires 1 <= n <= total
    ensures total / n >= 1 && total == n * (total / n) + total % n
  {
  }

  // ----- The parallel loop -----

  /** A detached task runs the loop function on the indices from `start` up to `end`. */
  datatype Task = Task(start: int, end: int)

  function Range(a: int, b: int): (r: seq<int>)
    ensures forall x :: x in r <==> a <= x < b
    decreases b - a
  {
    if a >= b then [] else [a] + Range(a + 1, b)
  }

  lemma {:induction false} RangeJoins(a: int, b: int, c: int)
    requires a <= b <= c
    ensures Range(a, b) + Range(b, c) == Range(a, c)
    decreases b - a
  {
    if a < b {
      RangeJoins(a + 1, b, c);
    }
  }

  lemma {:induction false} RangeSnoc(a: int, b: int)
    requires a <= b
    ensures Range(a, b + 1) == Range(a, b) + [b]
  {
    RangeJoins(a, b, b + 1);
  }

  /** The calls made by tasks run one after the other. */
  function Calls(tasks: seq<Task>): seq<int> {
    if tasks == [] then []
    else Calls(tasks[..|tasks| - 1]) + Range(tasks[|tasks| - 1].start, tasks[|tasks| - 1].end)
  }

  /** What a detached task does when run. */
  method RunTask(t: Task) returns (calls: seq<int>)
    ensures calls == Range(t.start, t.end)
  {
    calls := [];
    var i := t.start;
    while i < t.end
      invariant t.start <= i && (i <= t.end || i == t.start)
      invariant calls == Range(t.start, i)
    {
      RangeSnoc(t.start, i);
      calls := calls + [i];
      i := i + 1;
    }
  }

  /** Detaches a task per block; run in order they call the loop function on each index in turn. */
  method DetachLoop(first: int, after: int, numBlocks: nat, threadCount: nat) returns (tasks: seq<Task>)
    requires threadCount >= 1
    ensures Calls(tasks) == Range(first, after)
    ensures after > first ==>
              |tasks| == Min(if numBlocks > 0 then numBlocks else threadCount, after - first)
    ensures forall t <- tasks :: t.start < t.end
  {
    tasks := [];
    if after > first {
      var blks := new Blocks(first, after, if numBlocks > 0 then numBlocks else threadCount);
      var blk := 0;
      blks.BlocksAreConsecutive(0);
      while blk < blks.numBlocks
        invariant blks.Valid() && blk <= blks.numBlocks && |tasks| == blk
        invariant blks.firstIndex == first && blks.indexAfterLast == after
        invariant blks.numBlocks == Min(if numBlocks > 0 then numBlocks else threadCount, after - first)
        invariant Calls(tasks) == Range(first, if blk < blks.numBlocks then blks.Start(blk) else after)
        invariant blk < blks.numBlocks ==> first <= blks.Start(blk)
        invariant forall t <- tasks :: t.start < t.end
      {
        blks.BlocksAreConsecutive(blk);
        var t := Task(blks.Start(blk), blks.End(blk));
        RangeJoins(first, t.start, t.end);
        assert (tasks + [t])[..|tasks|] == tasks;
        tasks := tasks + [t];
        blk := blk + 1;
      }
    }
  }

  function CallsIndex(i: int): Task -> int {
    (t: Task) => if t.start <= i < t.end then 1 else 0
  }

  lemma {:induction false} RangeHasEachOnce(a: int, b: int, i: int)
    ensures multiset(Range(a, b))[i] == if a <= i < b then 1 else 0
    decreases b - a
  {
    if a < b {
      RangeHasEachOnce(a + 1, b, i);
    }
  }

  /** How often an index is called is how many tasks cover it. */
  lemma {:induction false} CallsAreCounted(tasks: seq<Task>, i: int)
    ensures multiset(Calls(tasks))[i] == Total(tasks, CallsIndex(i))
  {
    if tasks != [] {
      var n := |tasks| - 1;
      CallsAreCounted(tasks[..n], i);
      RangeHasEachOnce(tasks[n].start, tasks[n].end, i);
    }
  }

  /** In whatever order the pool's threads run the tasks, each index of the range is called exactly once. */
  lemma EachIndexOnce(first: int, after: int, tasks: seq<Task>, order: seq<Task>, i: int)
    requires Calls(tasks) == Range(first, after) && multiset(order) == multiset(tasks)
    ensures multiset(Calls(order))[i] == if first <= i < after then 1 else 0
  {
    CallsAreCounted(order, i);
    CallsAreCounted(tasks, i);
    TotalPermuted(order, tasks, CallsIndex(i));
    RangeHasEachOnce(first, after, i);
  }
}
