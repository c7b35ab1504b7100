/**
 * The worker/wait/detach protocol of the thread pool. Each action is one critical section under the task mutex, or one
 * notification sent outside it; any interleaving of actions is a run.
 */
module ThreadPool {
  import opened Counting

  /** A worker thread; asleep means blocked in the wait for a task, awake means it is about to check again. */
  datatype Worker = Init | Asleep | Awake | Running(task: nat) | Exited

  /** The one thread that may be inside `wait`. */
  datatype Waiter = Out | WaitAsleep | WaitAwake

  /**
   * Tasks are numbered in the order they were accepted. `notifyOnes` and `notifyAlls` count callers that have left
   * their critical section but have not yet notified. `started`, `finished` and `purged` are history.
   */
  datatype Pool = Pool(
    queue: seq<nat>, running: int, waiting: bool, paused: bool, stopping: bool,
    notifyOnes: nat, notifyAlls: nat, workers: seq<Worker>, waiter: Waiter,
    next: nat, started: seq<nat>, finished: seq<nat>, purged: seq<nat>)

  datatype Action =
    | Detach | Pause | Unpause | Purge | Stop
    | NotifyOne(w: nat) | NotifyAll | SpuriousWake(w: nat)
    | WorkerReturns(w: nat) | WorkerRechecks(w: nat)
    | WaitBegins | WaitRechecks | WaiterSpuriousWake

  /** The pool just after its threads were created: every thread counts as running until it first looks for a task. */
  predicate Created(s: Pool) {
    && |s.workers| > 0
    && (forall w :: 0 <= w < |s.workers| ==> s.workers[w] == Init)
    && s.running == |s.workers|
    && s.queue == [] && s.started == [] && s.finished == [] && s.purged == [] && s.next == 0
    && !s.waiting && s.waiter == Out && !s.stopping
    && s.notifyOnes == 0 && s.notifyAlls == 0
  }

  predicate NobodyAsleep(ws: seq<Worker>) {
    forall w :: 0 <= w < |ws| ==> ws[w] != Asleep
  }

  predicate Enabled(s: Pool, a: Action) {
    match a
    case NotifyOne(w) => s.notifyOnes > 0 && w < |s.workers| && (s.workers[w].Asleep? || NobodyAsleep(s.workers))
    case NotifyAll => s.notifyAlls > 0
    case SpuriousWake(w) => w < |s.workers| && s.workers[w].Asleep?
    case WorkerReturns(w) => w < |s.workers| && (s.workers[w].Init? || s.workers[w].Running?)
    case WorkerRechecks(w) => w < |s.workers| && s.workers[w].Awake?
    case WaitBegins => s.waiter.Out?
    case WaitRechecks => s.waiter.WaitAwake?
    case WaiterSpuriousWake => s.waiter.WaitAsleep?
    case _ => true
  }

  predicate NothingToDo(s: Pool) { s.running == 0 && (s.paused || s.queue == []) }

  function Rouse(w: Worker): Worker { if w.Asleep? then Awake else w }

  /** The end of the worker's critical section: take the oldest task, leave, or sleep. */
  function TakeOrSleep(s: Pool, w: nat): Pool
    requires w < |s.workers|
  {
    if s.stopping then s.(workers := s.workers[w := Exited])
    else if s.paused || s.queue == [] then s.(workers := s.workers[w := Asleep])
    else s.(workers := s.workers[w := Running(s.queue[0])], queue := s.queue[1..],
            started := s.started + [s.queue[0]], running := s.running + 1)
  }

  /** A worker back from its initialisation or its task. */
  function Return(s: Pool, w: nat): Pool
    requires w < |s.workers|
  {
    var f := if s.workers[w].Running? then s.finished + [s.workers[w].task] else s.finished;
    var t := s.(running := s.running - 1, finished := f);
    if t.waiting && NothingToDo(t) then t.(waiter := if t.waiter.WaitAsleep? then WaitAwake else t.waiter) else t
  }

  function CheckWaiter(s: Pool): Pool {
    if NothingToDo(s) then s.(waiting := false, waiter := Out) else s.(waiter := WaitAsleep)
  }

  function Do(s: Pool, a: Action): Pool
    requires Enabled(s, a)
  {
    match a
    case Detach => s.(queue := s.queue + [s.next], next := s.next + 1, notifyOnes := s.notifyOnes + 1)
    case Pause => s.(paused := true)
    case Unpause => s.(paused := false, notifyAlls := s.notifyAlls + 1)
    case Purge => s.(queue := [], purged := s.purged + s.queue)
    case Stop => s.(stopping := true, notifyAlls := s.notifyAlls + 1)
    case NotifyOne(w) => s.(notifyOnes := s.notifyOnes - 1, workers := s.workers[w := Rouse(s.workers[w])])
    case NotifyAll =>
      s.(notifyAlls := s.notifyAlls - 1, workers := seq(|s.workers|, i requires 0 <= i < |s.workers| => Rouse(s.workers[i])))
    case SpuriousWake(w) => s.(workers := s.workers[w := Awake])
    case WorkerReturns(w) => TakeOrSleep(Return(s, w), w)
    case WorkerRechecks(w) => TakeOrSleep(s, w)
    case WaitBegins => CheckWaiter(s.(waiting := true))
    case WaitRechecks => CheckWaiter(s)
    case WaiterSpuriousWake => s.(waiter := WaitAwake)
  }

  ghost predicate IsRun(run: seq<Pool>, acts: seq<Action>) {
    && |run| == |acts| + 1
    && Created(run[0])
    && forall i :: 0 <= i < |acts| ==> Enabled(run[i], acts[i]) && run[i + 1] == Do(run[i], acts[i])
  }

  // ----- Who is counted, and which tasks are where -----

  function Busy(w: Worker): int { if w.Init? || w.Running? then 1 else 0 }

  function Runs(task: nat): Worker -> int { (w: Worker) => if w == Running(task) then 1 else 0 }

  function Wakeful(w: Worker): int { if w.Awake? then 1 else 0 }

  function Count(s: seq<nat>, task: nat): nat { multiset(s)[task] }

  ghost predicate Counted(s: Pool) { s.running == Total(s.workers, Busy) }

  /** Each accepted task was queued, started or purged, once; each started one is running or finished, once. */
  ghost predicate Accounted(s: Pool) {
    && (forall id: nat :: Count(s.queue, id) + Count(s.started, id) + Count(s.purged, id) == if id < s.next then 1 else 0)
    && (forall id: nat :: Count(s.started, id) == Total(s.workers, Runs(id)) + Count(s.finished, id))
  }

  ghost predicate Ascending(xs: seq<nat>) {
    forall i, j :: 0 <= i < j < |xs| ==> xs[i] < xs[j]
  }

  /** Tasks started and then those queued, together, are in order of acceptance. */
  ghost predicate InOrder(s: Pool) {
    Ascending(s.started + s.queue) && forall id <- s.started + s.queue :: id < s.next
  }

  lemma TotalNever(ws: seq<Worker>)
    ensures Total(ws, Busy) >= 0 && Total(ws, Wakeful) >= 0
    ensures forall id: nat :: Total(ws, Runs(id)) >= 0
  {
    TotalAtLeast(ws, Busy, 0);
    TotalAtLeast(ws, Wakeful, 0);
    forall id: nat ensures Total(ws, Runs(id)) >= 0 {
      TotalAtLeast(ws, Runs(id), 0);
    }
  }

  lemma RouseWeighs(ws: seq<Worker>, vs: seq<Worker>)
    requires |vs| == |ws| && forall i :: 0 <= i < |ws| ==> vs[i] == Rouse(ws[i])
    ensures Total(vs, Busy) == Total(ws, Busy)
    ensures forall id: nat :: Total(vs, Runs(id)) == Total(ws, Runs(id))
  {
    TotalPointwise(vs, ws, Busy);
    forall id: nat ensures Total(vs, Runs(id)) == Total(ws, Runs(id)) {
      TotalPointwise(vs, ws, Runs(id));
    }
  }

  /** Changing one worker changes the totals by that worker's weight. */
  lemma WorkerWeighs(ws: seq<Worker>, w: nat, v: Worker)
    requires w < |ws|
    ensures Total(ws[w := v], Busy) == Total(ws, Busy) - Busy(ws[w]) + Busy(v)
    ensures forall id: nat :: Total(ws[w := v], Runs(id)) == Total(ws, Runs(id)) - Runs(id)(ws[w]) + Runs(id)(v)
  {
    TotalUpdate(ws, Busy, w, v);
    forall id: nat
      ensures Total(ws[w := v], Runs(id)) == Total(ws, Runs(id)) - Runs(id)(ws[w]) + Runs(id)(v)
    {
      TotalUpdate(ws, Runs(id), w, v);
    }
  }

  lemma CountAppend(s: seq<nat>, t: seq<nat>, task: nat)
    ensures Count(s + t, task) == Count(s, task) + Count(t, task)
  {
    assert multiset(s + t) == multiset(s) + multiset(t);
  }

  lemma CountOne(x: nat, task: nat)
    ensures Count([x], task) == if x == task then 1 else 0
  {
  }

  /** Taking a task moves it from the queue to the started ones, at the worker. */
  lemma TakeKeepsAccount(s: Pool, w: nat)
    requires w < |s.workers| && Busy(s.workers[w]) == 0 && Counted(s) && Accounted(s) && InOrder(s)
    ensures Counted(TakeOrSleep(s, w)) && Accounted(TakeOrSleep(s, w)) && InOrder(TakeOrSleep(s, w))
  {
    var t := TakeOrSleep(s, w);
    WorkerWeighs(s.workers, w, t.workers[w]);
    if t.queue != s.queue {
      assert s.queue == [s.queue[0]] + s.queue[1..];
      assert t.started + t.queue == s.started + s.queue;
      forall id: nat
        ensures Count(t.queue, id) + Count(t.started, id) == Count(s.queue, id) + Count(s.started, id)
        ensures Count(t.started, id) == Count(s.started, id) + Runs(id)(t.workers[w])
      {
        CountAppend([s.queue[0]], s.queue[1..], id);
        CountAppend(s.started, [s.queue[0]], id);
        CountOne(s.queue[0], id);
      }
    }
  }

  /** The pool between a worker's return and its looking for the next task. */
  ghost function Returned(s: Pool, w: nat): Pool
    requires w < |s.workers|
  {
    Return(s, w).(workers := s.workers[w := Awake])
  }

  lemma ReturnedTaskIsFinished(s: Pool, w: nat)
    requires Enabled(s, WorkerReturns(w)) && Counted(s) && Accounted(s)
    ensures Counted(Returned(s, w)) && Accounted(Returned(s, w))
  {
    WorkerWeighs(s.workers, w, Awake);
    var t := Returned(s, w);
    forall id: nat ensures Count(t.finished, id) == Count(s.finished, id) + Runs(id)(s.workers[w]) {
      if s.workers[w].Running? {
        CountAppend(s.finished, [s.workers[w].task], id);
        CountOne(s.workers[w].task, id);
      }
    }
  }

  /** A worker's return: its task is finished and no longer counted before it looks for the next. */
  lemma ReturnKeepsAccount(s: Pool, w: nat)
    requires Enabled(s, WorkerReturns(w)) && Counted(s) && Accounted(s) && InOrder(s)
    ensures var t := Do(s, WorkerReturns(w)); Counted(t) && Accounted(t) && InOrder(t)
  {
    var t := Returned(s, w);
    ReturnedTaskIsFinished(s, w);
    TakeKeepsAccount(t, w);
    TakeAfterReturn(s, w);
  }

  lemma TakeAfterReturn(s: Pool, w: nat)
    requires Enabled(s, WorkerReturns(w))
    ensures Do(s, WorkerReturns(w)) == TakeOrSleep(Returned(s, w), w)
  {
    var a, b := TakeOrSleep(Return(s, w), w), TakeOrSleep(Returned(s, w), w);
    assert a.workers == b.workers;
  }

  lemma AscendingAppend(xs: seq<nat>, bound: nat)
    requires Ascending(xs) && forall x <- xs :: x < bound
    ensures Ascending(xs + [bound])
  {
    forall i, j | 0 <= i < j < |xs + [bound]| ensures (xs + [bound])[i] < (xs + [bound])[j] {
      assert xs[i] in xs;
    }
  }

  lemma QueueKeepsAccount(s: Pool, a: Action)
    requires a.Detach? || a.Purge?
    requires Accounted(s) && InOrder(s)
    ensures Accounted(Do(s, a)) && InOrder(Do(s, a))
  {
    var t := Do(s, a);
    forall id: nat
      ensures Count(t.queue, id) + Count(t.started, id) + Count(t.purged, id) == if id < t.next then 1 else 0
    {
      CountAppend(s.queue, [s.next], id);
      CountOne(s.next, id);
      CountAppend(s.purged, s.queue, id);
    }
    if a.Detach? {
      assert t.started + t.queue == (s.started + s.queue) + [s.next];
      AscendingAppend(s.started + s.queue, s.next);
    } else {
      assert t.started + t.queue == (s.started + s.queue)[..|s.started|];
      assert forall id :: id in t.started + t.queue ==> id in s.started + s.queue;
    }
  }

  lemma SameAccount(s: Pool, t: Pool)
    requires Counted(s) && Accounted(s) && InOrder(s)
    requires t.running == s.running && t.workers == s.workers && t.queue == s.queue && t.next == s.next
    requires t.started == s.started && t.finished == s.finished && t.purged == s.purged
    ensures Counted(t) && Accounted(t) && InOrder(t)
  {
  }

  lemma NotifyKeepsAccount(s: Pool, a: Action)
    requires a.NotifyOne? || a.NotifyAll? || a.SpuriousWake?
    requires Enabled(s, a) && Counted(s) && Accounted(s) && InOrder(s)
    ensures Counted(Do(s, a)) && Accounted(Do(s, a)) && InOrder(Do(s, a))
  {
    match a
    case NotifyOne(w) => WorkerWeighs(s.workers, w, Rouse(s.workers[w]));
    case SpuriousWake(w) => WorkerWeighs(s.workers, w, Awake);
    case NotifyAll => RouseWeighs(s.workers, Do(s, a).workers);
  }

  lemma DoKeepsAccount(s: Pool, a: Action)
    requires Enabled(s, a) && Counted(s) && Accounted(s) && InOrder(s)
    ensures Counted(Do(s, a)) && Accounted(Do(s, a)) && InOrder(Do(s, a))
  {
    match a
    case Detach => QueueKeepsAccount(s, a);
    case Purge => QueueKeepsAccount(s, a);
    case WorkerReturns(w) => ReturnKeepsAccount(s, w);
    case WorkerRechecks(w) => TakeKeepsAccount(s, w);
    case NotifyOne(_) => NotifyKeepsAccount(s, a);
    case SpuriousWake(_) => NotifyKeepsAccount(s, a);
    case NotifyAll => NotifyKeepsAccount(s, a);
    case _ => SameAccount(s, Do(s, a));
  }

  // ----- Wake-ups -----

  /**
   * Unless stopping, no worker sleeps while more tasks wait than wake-ups are delivered or due; when stopping, none
   * sleeps unless a broadcast is due.
   */
  ghost predicate Supplied(s: Pool) {
    || NobodyAsleep(s.workers)
    || s.notifyAlls > 0
    || (!s.stopping && (s.paused || |s.queue| <= Total(s.workers, Wakeful) + s.notifyOnes))
  }

  ghost predicate Shape(s: Pool) {
    && |s.workers| > 0
    && (s.stopping || forall w :: 0 <= w < |s.workers| ==> s.workers[w] != Exited)
    && (s.waiting <==> !s.waiter.Out?)
  }

  lemma DoKeepsShape(s: Pool, a: Action)
    requires Enabled(s, a) && Shape(s)
    ensures Shape(Do(s, a))
  {
  }

  lemma TakeKeepsSupply(s: Pool, w: nat)
    requires w < |s.workers| && !s.workers[w].Asleep? && Supplied(s)
    ensures Supplied(TakeOrSleep(s, w))
  {
    var t := TakeOrSleep(s, w);
    TotalUpdate(s.workers, Wakeful, w, t.workers[w]);
    TotalNever(t.workers);
    if NobodyAsleep(s.workers) && !t.workers[w].Asleep? {
      assert NobodyAsleep(t.workers);
    }
  }

  lemma DoKeepsSupply(s: Pool, a: Action)
    requires Enabled(s, a) && Supplied(s)
    ensures Supplied(Do(s, a))
  {
    var t := Do(s, a);
    TotalNever(s.workers);
    match a
    case WorkerReturns(w) => TakeKeepsSupply(Return(s, w), w);
    case WorkerRechecks(w) => TakeKeepsSupply(s, w);
    case NotifyOne(w) => TotalUpdate(s.workers, Wakeful, w, Rouse(s.workers[w]));
    case SpuriousWake(w) => TotalUpdate(s.workers, Wakeful, w, Awake);
    case NotifyAll => assert NobodyAsleep(t.workers);
    case _ =>
  }

  ghost predicate Inv(s: Pool) {
    Counted(s) && Accounted(s) && InOrder(s) && Shape(s) && Supplied(s)
  }

  lemma CreatedInv(s: Pool)
    requires Created(s)
    ensures Inv(s)
  {
    TotalIsLength(s.workers);
    forall id: nat ensures Total(s.workers, Runs(id)) == 0 {
      TotalZero(s.workers, Runs(id));
    }
  }

  lemma {:induction false} TotalIsLength(ws: seq<Worker>)
    requires forall w :: 0 <= w < |ws| ==> ws[w] == Init
    ensures Total(ws, Busy) == |ws|
  {
    if ws != [] {
      TotalIsLength(ws[..|ws| - 1]);
    }
  }

  lemma {:induction false} RunInv(run: seq<Pool>, acts: seq<Action>, i: nat)
    requires IsRun(run, acts) && i < |run|
    ensures Inv(run[i])
  {
    if i == 0 {
      CreatedInv(run[0]);
    } else {
      RunInv(run, acts, i - 1);
      assert run[i - 1 + 1] == Do(run[i - 1], acts[i - 1]);
      DoKeepsAccount(run[i - 1], acts[i - 1]);
      DoKeepsShape(run[i - 1], acts[i - 1]);
      DoKeepsSupply(run[i - 1], acts[i - 1]);
    }
  }

  // ----- What runs guarantee -----

  /** The counter is the number of workers initialising or executing, and is never negative. */
  lemma RunningIsCounted(run: seq<Pool>, acts: seq<Action>, i: nat)
    requires IsRun(run, acts) && i < |run|
    ensures run[i].running == Total(run[i].workers, Busy) >= 0
  {
    RunInv(run, acts, i);
    TotalNever(run[i].workers);
  }

  /** Each accepted task is in exactly one of: queued, running, finished, purged; no other task is anywhere. */
  lemma TaskIsInOnePlace(run: seq<Pool>, acts: seq<Action>, i: nat, task: nat)
    requires IsRun(run, acts) && i < |run|
    ensures var s := run[i];
            Count(s.queue, task) + Total(s.workers, Runs(task)) + Count(s.finished, task) + Count(s.purged, task)
            == if task < s.next then 1 else 0
  {
    RunInv(run, acts, i);
  }

  /** Tasks start in the order they were accepted, and none is passed over unless purged. */
  lemma StartsInOrder(run: seq<Pool>, acts: seq<Action>, i: nat, task: nat)
    requires IsRun(run, acts) && i < |run|
    ensures Ascending(run[i].started)
    ensures (exists k :: 0 <= k < |run[i].started| && task < run[i].started[k]) ==>
              task in run[i].started || task in run[i].purged
  {
    RunInv(run, acts, i);
    var s := run[i];
    var all := s.started + s.queue;
    forall a, b | 0 <= a < b < |s.started| ensures s.started[a] < s.started[b] {
      assert all[a] == s.started[a] && all[b] == s.started[b];
    }
    if k :| 0 <= k < |s.started| && task < s.started[k] {
      assert all[k] == s.started[k] && all[k] in all;
      if task in s.queue {
        var q :| 0 <= q < |s.queue| && s.queue[q] == task;
        assert all[|s.started| + q] == task;
      }
      assert Count(s.queue, task) + Count(s.started, task) + Count(s.purged, task) == 1;
    }
  }

  /** A task waiting in an unpaused, unstopped pool finds a worker awake or a notification still due. */
  lemma QueuedTaskIsNoticed(run: seq<Pool>, acts: seq<Action>, i: nat)
    requires IsRun(run, acts) && i < |run|
    requires run[i].queue != [] && !run[i].paused && !run[i].stopping
    ensures var s := run[i];
            || s.notifyOnes > 0 || s.notifyAlls > 0
            || exists w :: 0 <= w < |s.workers| && !s.workers[w].Asleep? && !s.workers[w].Exited?
  {
    RunInv(run, acts, i);
    var s := run[i];
    if NobodyAsleep(s.workers) {
      assert !s.workers[0].Asleep? && !s.workers[0].Exited?;
    } else if forall w :: 0 <= w < |s.workers| ==> !s.workers[w].Awake? {
      TotalZero(s.workers, Wakeful);
    }
  }

  /** More strongly: a worker sleeps only if as many wake-ups are delivered or due as tasks wait, or a broadcast is. */
  lemma SleepersAreNotNeeded(run: seq<Pool>, acts: seq<Action>, i: nat, w: nat)
    requires IsRun(run, acts) && i < |run| && w < |run[i].workers| && run[i].workers[w].Asleep?
    ensures var s := run[i];
            || s.notifyAlls > 0
            || (!s.stopping && (s.paused || |s.queue| <= Total(s.workers, Wakeful) + s.notifyOnes))
  {
    RunInv(run, acts, i);
  }

  /** When `wait` returns in an unpaused pool, every task accepted so far has run once or was purged. */
  lemma WaitReturnsWhenDone(run: seq<Pool>, acts: seq<Action>, i: nat, task: nat)
    requires IsRun(run, acts) && i < |acts| && (acts[i].WaitBegins? || acts[i].WaitRechecks?)
    requires run[i + 1].waiter.Out? && !run[i].paused && task < run[i + 1].next
    ensures var s := run[i + 1];
            || (Count(s.finished, task) == Count(s.started, task) == 1 && Count(s.purged, task) == 0)
            || (Count(s.finished, task) == Count(s.started, task) == 0 && Count(s.purged, task) == 1)
    ensures var ws := run[i + 1].workers; forall w :: 0 <= w < |ws| ==> !ws[w].Running?
  {
    RunInv(run, acts, i + 1);
    var s := run[i + 1];
    assert s == Do(run[i], acts[i]);
    forall w | 0 <= w < |s.workers| ensures !s.workers[w].Running? && !s.workers[w].Init? {
      TotalCovers(s.workers, Busy, w);
    }
    TotalZero(s.workers, Runs(task));
  }

  // ----- What each action does -----

  /** A worker's critical section: it is back from a task, or was woken. */
  predicate WorkerActs(a: Action) { a.WorkerReturns? || a.WorkerRechecks? }

  /** A worker may take a task. */
  predicate MayStart(s: Pool) { !s.paused && !s.stopping && s.queue != [] }

  /** Only a worker starts tasks, one at a time: the oldest queued, whenever the pool is neither paused nor stopping. */
  lemma OnlyWorkersStart(run: seq<Pool>, acts: seq<Action>, i: nat)
    requires IsRun(run, acts) && i < |acts|
    ensures run[i + 1].started != run[i].started <==> WorkerActs(acts[i]) && MayStart(run[i])
    ensures run[i + 1].started != run[i].started ==>
              && run[i + 1].started == run[i].started + [run[i].queue[0]]
              && run[i + 1].queue == run[i].queue[1..]
              && run[i + 1].workers == run[i].workers[acts[i].w := Running(run[i].queue[0])]
    ensures WorkerActs(acts[i]) && !MayStart(run[i]) ==>
              run[i + 1].workers == run[i].workers[acts[i].w := if run[i].stopping then Exited else Asleep]
  {
    assert run[i + 1] == Do(run[i], acts[i]);
  }

  /** The pause lasts from `pause` to `unpause`, and stopping for good; nothing else changes either. */
  lemma PauseAndStop(run: seq<Pool>, acts: seq<Action>, i: nat)
    requires IsRun(run, acts) && i < |acts|
    ensures run[i + 1].paused == if acts[i].Pause? then true else if acts[i].Unpause? then false else run[i].paused
    ensures run[i + 1].stopping == (run[i].stopping || acts[i].Stop?)
    ensures acts[i].Unpause? || acts[i].Stop? ==> run[i + 1].notifyAlls == run[i].notifyAlls + 1
  {
    assert run[i + 1] == Do(run[i], acts[i]);
  }

  lemma NothingStartsNow(s: Pool, a: Action)
    requires Enabled(s, a) && (s.stopping || (s.paused && !a.Unpause?))
    ensures Do(s, a).started == s.started && if s.stopping then Do(s, a).stopping else Do(s, a).paused
  {
  }

  /** While paused, or once stopping, a pool starts nothing. */
  lemma {:induction false} NothingStartsMeanwhile(run: seq<Pool>, acts: seq<Action>, b: nat, i: nat)
    requires IsRun(run, acts) && b <= i < |run|
    requires || run[b].stopping
             || (run[b].paused && forall k :: b <= k < i ==> !acts[k].Unpause?)
    ensures run[i].started == run[b].started
    ensures if run[b].stopping then run[i].stopping else run[i].paused
  {
    if i > b {
      NothingStartsMeanwhile(run, acts, b, i - 1);
      assert run[i - 1 + 1] == Do(run[i - 1], acts[i - 1]);
      NothingStartsNow(run[i - 1], acts[i - 1]);
    }
  }

  /** Each detached task is queued last under the next number, with a notification due; purging empties the queue. */
  lemma QueueChanges(run: seq<Pool>, acts: seq<Action>, i: nat)
    requires IsRun(run, acts) && i < |acts|
    ensures acts[i].Detach? ==>
              && run[i + 1].queue == run[i].queue + [run[i].next] && run[i + 1].next == run[i].next + 1
              && run[i + 1].notifyOnes == run[i].notifyOnes + 1
    ensures acts[i].Purge? ==> run[i + 1].queue == [] && run[i + 1].purged == run[i].purged + run[i].queue
    ensures !acts[i].Detach? ==> run[i + 1].next == run[i].next
    ensures !acts[i].Purge? ==> run[i + 1].purged == run[i].purged
    ensures !acts[i].Detach? && !acts[i].Purge? && !WorkerActs(acts[i]) ==> run[i + 1].queue == run[i].queue
  {
    assert run[i + 1] == Do(run[i], acts[i]);
  }

  /** A task is finished when its worker returns from it, and then only. */
  lemma OnlyReturnsFinish(run: seq<Pool>, acts: seq<Action>, i: nat)
    requires IsRun(run, acts) && i < |acts|
    ensures run[i + 1].finished
         == run[i].finished + if acts[i].WorkerReturns? && run[i].workers[acts[i].w].Running?
                              then [run[i].workers[acts[i].w].task] else []
  {
    assert run[i + 1] == Do(run[i], acts[i]);
  }

  /** Notifications due are those owed by the actions so far, less those sent. */
  lemma {:induction false} NotificationsDue(run: seq<Pool>, acts: seq<Action>, i: nat)
    requires IsRun(run, acts) && i < |run|
    ensures run[i].notifyOnes == Total(acts[..i], OwedToOne)
    ensures run[i].notifyAlls == Total(acts[..i], OwedToAll)
  {
    if i > 0 {
      NotificationsDue(run, acts, i - 1);
      assert run[i - 1 + 1] == Do(run[i - 1], acts[i - 1]);
      assert acts[..i][..i - 1] == acts[..i - 1];
    }
  }

  function OwedToOne(a: Action): int { if a.Detach? then 1 else if a.NotifyOne? then -1 else 0 }

  function OwedToAll(a: Action): int { if a.Unpause? || a.Stop? then 1 else if a.NotifyAll? then -1 else 0 }

  /** A spurious wake-up is possible at any time, and does nothing: the condition is checked again. */
  lemma SpuriousWakesAreHarmless(s: Pool, w: nat)
    ensures w < |s.workers| && s.workers[w].Asleep? ==>
              && Enabled(s, SpuriousWake(w)) && Enabled(Do(s, SpuriousWake(w)), WorkerRechecks(w))
              && (!s.stopping && !MayStart(s) ==> Do(Do(s, SpuriousWake(w)), WorkerRechecks(w)) == s)
    ensures s.waiter.WaitAsleep? ==>
              && Enabled(s, WaiterSpuriousWake) && Enabled(Do(s, WaiterSpuriousWake), WaitRechecks)
              && (s.running != 0 || (!s.paused && s.queue != []) ==>
                    Do(Do(s, WaiterSpuriousWake), WaitRechecks) == s)
  {
    if w < |s.workers| && s.workers[w].Asleep? {
      assert s.workers[w := Awake][w := Asleep] == s.workers;
    }
  }

  /** `wait` can be called when nobody is in it; a waiter awake checks its condition next. */
  lemma WaiterCanGoOn(s: Pool)
    ensures s.waiter.Out? ==> Enabled(s, WaitBegins)
    ensures s.waiter.WaitAwake? ==>
              && Enabled(s, WaitRechecks)
              && (Do(s, WaitRechecks).waiter.Out? <==> s.running == 0 && (s.paused || s.queue == []))
  {
  }

  /** `wait` returns exactly when it finds no worker counted as running, and no task queued unless paused; else it sleeps. */
  lemma WaitReturnsIff(run: seq<Pool>, acts: seq<Action>, i: nat)
    requires IsRun(run, acts) && i < |acts| && (acts[i].WaitBegins? || acts[i].WaitRechecks?)
    ensures run[i + 1].waiter == if run[i].running == 0 && (run[i].paused || run[i].queue == []) then Out else WaitAsleep
  {
    assert run[i + 1] == Do(run[i], acts[i]);
  }

  /** A worker whose return makes it so wakes the waiter. */
  lemma ReturnWakesWaiter(run: seq<Pool>, acts: seq<Action>, i: nat)
    requires IsRun(run, acts) && i < |acts| && acts[i].WorkerReturns? && run[i].waiter.WaitAsleep?
    ensures run[i + 1].waiter == if run[i].running == 1 && (run[i].paused || run[i].queue == []) then WaitAwake else WaitAsleep
  {
    RunInv(run, acts, i);
    assert run[i + 1] == Do(run[i], acts[i]);
  }

  /** Whenever a task may start, it can be started by at most one notification and one action of a worker. */
  lemma OldestTaskCanStart(run: seq<Pool>, acts: seq<Action>, i: nat) returns (a: seq<Action>, s: Pool)
    requires IsRun(run, acts) && i < |run| && MayStart(run[i])
    ensures (a == [] && s == run[i]) || (|a| == 1 && Enabled(run[i], a[0]) && s == Do(run[i], a[0]))
    ensures s.queue == run[i].queue && s.started == run[i].started && MayStart(s)
    ensures exists w: nat :: CanTake(s, w)
  {
    var p := run[i];
    QueuedTaskIsNoticed(run, acts, i);
    RunInv(run, acts, i);
    a, s := [], p;
    if w: nat :| w < |p.workers| && !p.workers[w].Asleep? {
      assert CanTake(p, w);
    } else if p.notifyOnes > 0 {
      a, s := [NotifyOne(0)], Do(p, NotifyOne(0));
      assert CanTake(s, 0);
    } else {
      a, s := [NotifyAll], Do(p, NotifyAll);
      assert CanTake(s, 0);
    }
  }

  /** Worker `w` has a next action that starts the oldest task. */
  predicate CanTake(s: Pool, w: nat) {
    && w < |s.workers|
    && var a := if s.workers[w].Awake? then WorkerRechecks(w) else WorkerReturns(w);
       Enabled(s, a) && s.queue != [] && Do(s, a).started == s.started + [s.queue[0]]
  }

  /** Once a pool is stopping, every worker can leave, in at most one notification and one action of its own. */
  lemma WorkersCanLeave(run: seq<Pool>, acts: seq<Action>, i: nat, w: nat) returns (a: seq<Action>, s: Pool)
    requires IsRun(run, acts) && i < |run| && run[i].stopping && w < |run[i].workers| && !run[i].workers[w].Exited?
    ensures (a == [] && s == run[i]) || (|a| == 1 && Enabled(run[i], a[0]) && s == Do(run[i], a[0]))
    ensures CanLeave(s, w)
  {
    var p := run[i];
    RunInv(run, acts, i);
    a, s := [], p;
    if p.workers[w].Asleep? {
      a, s := [NotifyAll], Do(p, NotifyAll);
    }
  }

  predicate CanLeave(s: Pool, w: nat) {
    && w < |s.workers|
    && var a := if s.workers[w].Awake? then WorkerRechecks(w) else WorkerReturns(w);
       Enabled(s, a) && w < |Do(s, a).workers| && Do(s, a).workers[w] == Exited
  }

  // ----- The waiter's wake-up -----

  /** The waiter sleeps although what it waits for is the case. */
  predicate Missed(s: Pool) { s.waiter.WaitAsleep? && NothingToDo(s) }

  lemma MissedOnlyIf(s: Pool, a: Action)
    requires Enabled(s, a) && !Missed(s) && Shape(s) && s.running >= 0
    requires a.WorkerReturns? ==> s.running >= 1
    ensures Missed(Do(s, a)) <==> (a.Pause? || a.Purge?) && s.waiter.WaitAsleep? && s.running == 0
  {
  }

  /** An action makes a sleeping waiter miss its condition exactly if it pauses or purges an idle pool. */
  lemma WakeUpMissedIff(run: seq<Pool>, acts: seq<Action>, i: nat)
    requires IsRun(run, acts) && i < |acts| && !Missed(run[i])
    ensures Missed(run[i + 1]) <==>
              (acts[i].Pause? || acts[i].Purge?) && run[i].waiter.WaitAsleep? && run[i].running == 0
  {
    RunInv(run, acts, i);
    TotalNever(run[i].workers);
    if acts[i].WorkerReturns? {
      TotalCovers(run[i].workers, Busy, acts[i].w);
    }
    MissedOnlyIf(run[i], acts[i]);
  }

  lemma {:induction false} NeverMissed(run: seq<Pool>, acts: seq<Action>, b: nat, i: nat)
    requires IsRun(run, acts) && b <= i < |run| && !Missed(run[b])
    requires forall k :: b <= k < i ==> !acts[k].Pause? && !acts[k].Purge?
    ensures !Missed(run[i])
  {
    if i > b {
      NeverMissed(run, acts, b, i - 1);
      WakeUpMissedIff(run, acts, i - 1);
    }
  }

  /** Without pause and purge during the wait, a sleeping waiter has a task queued or a worker counted as running. */
  lemma SleepingWaiterHasReason(run: seq<Pool>, acts: seq<Action>, b: nat, i: nat)
    requires IsRun(run, acts) && b <= i < |run|
    requires run[b].waiter.Out?
    requires forall k :: b <= k < i ==> !acts[k].Pause? && !acts[k].Purge?
    ensures run[i].waiter.WaitAsleep? ==> run[i].running > 0 || (!run[i].paused && run[i].queue != [])
  {
    NeverMissed(run, acts, b, i);
    RunningIsCounted(run, acts, i);
  }

  /** In such a run of an unstopped pool somebody is always able to act on behalf of the sleeping waiter. */
  lemma SleepingWaiterIsServed(run: seq<Pool>, acts: seq<Action>, b: nat, i: nat)
    requires IsRun(run, acts) && b <= i < |run|
    requires run[b].waiter.Out? && run[i].waiter.WaitAsleep? && !run[i].stopping
    requires forall k :: b <= k < i ==> !acts[k].Pause? && !acts[k].Purge?
    ensures var s := run[i];
            || s.notifyOnes > 0 || s.notifyAlls > 0
            || exists w :: 0 <= w < |s.workers| && !s.workers[w].Asleep? && !s.workers[w].Exited?
  {
    SleepingWaiterHasReason(run, acts, b, i);
    if run[i].running > 0 {
      RunInv(run, acts, i);
      if forall w :: 0 <= w < |run[i].workers| ==> Busy(run[i].workers[w]) == 0 {
        TotalZero(run[i].workers, Busy);
      }
    } else {
      QueuedTaskIsNoticed(run, acts, i);
    }
  }

  lemma Extend(run: seq<Pool>, acts: seq<Action>, a: Action, s: Pool)
    requires IsRun(run, acts) && Enabled(run[|acts|], a) && s == Do(run[|acts|], a)
    ensures IsRun(run + [s], acts + [a])
  {
  }

  /** Six actions on a pool with one worker: the waiter sleeps for the queued task, which is then purged. */
  lemma LostWakeUpActions(s0: Pool, s1: Pool, s2: Pool, s3: Pool, s4: Pool, s5: Pool, s6: Pool)
    requires s0 == Pool([], 1, false, false, false, 0, 0, [Init], Out, 0, [], [], [])
    requires s1 == s0.(running := 0, workers := [Asleep])
    requires s2 == s1.(queue := [0], next := 1, notifyOnes := 1)
    requires s3 == s2.(waiting := true, waiter := WaitAsleep)
    requires s4 == s3.(queue := [], purged := [0])
    requires s5 == s4.(notifyOnes := 0, workers := [Awake])
    requires s6 == s5.(workers := [Asleep])
    ensures s1 == Do(s0, WorkerReturns(0)) && s2 == Do(s1, Detach) && s3 == Do(s2, WaitBegins)
    ensures s4 == Do(s3, Purge) && s5 == Do(s4, NotifyOne(0)) && s6 == Do(s5, WorkerRechecks(0))
  {
    assert s0.workers[0 := Asleep] == [Asleep];
    assert s4.workers[0 := Awake] == [Awake];
    assert s5.workers[0 := Asleep] == [Asleep];
  }

  /** A run in which purging an idle pool leaves the waiter asleep with nothing left to wake it. */
  lemma PurgeLosesWakeUp() returns (run: seq<Pool>, acts: seq<Action>)
    ensures IsRun(run, acts) && |run| == 7
    ensures var s := run[6];
            && Missed(s) && !s.stopping && !s.paused
            && s.notifyOnes == 0 && s.notifyAlls == 0 && s.workers == [Asleep]
  {
    var s0 := Pool([], 1, false, false, false, 0, 0, [Init], Out, 0, [], [], []);
    var s1 := s0.(running := 0, workers := [Asleep]);
    var s2 := s1.(queue := [0], next := 1, notifyOnes := 1);
    var s3 := s2.(waiting := true, waiter := WaitAsleep);
    var s4 := s3.(queue := [], purged := [0]);
    var s5 := s4.(notifyOnes := 0, workers := [Awake]);
    var s6 := s5.(workers := [Asleep]);
    LostWakeUpActions(s0, s1, s2, s3, s4, s5, s6);
    Extend([s0], [], WorkerReturns(0), s1);
    Extend([s0] + [s1], [] + [WorkerReturns(0)], Detach, s2);
    run, acts := [s0] + [s1] + [s2], [] + [WorkerReturns(0)] + [Detach];
    Extend(run, acts, WaitBegins, s3);
    run, acts := run + [s3], acts + [WaitBegins];
    Extend(run, acts, Purge, s4);
    run, acts := run + [s4], acts + [Purge];
    Extend(run, acts, NotifyOne(0), s5);
    run, acts := run + [s5], acts + [NotifyOne(0)];
    Extend(run, acts, WorkerRechecks(0), s6);
    run, acts := run + [s6], acts + [WorkerRechecks(0)];
  }
}
