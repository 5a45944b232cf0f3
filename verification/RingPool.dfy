/** The pool's data: a ring buffer of task slots with head_, tail_ and count_, changed in
    place by the critical sections of ThreadPool.cpp. It is a bounded first-in-first-out
    queue, and each section does what PoolProtocol says. */
module RingPool {
  import opened Prelude
  import opened PoolProtocol

  const MAX_THREADS: int := 1024
  const MAX_QUEUE: int := 65535
  const CREATE_FAILED: int := -1

  /** How far slot j lies behind head in a ring of n slots. */
  function Offset(head: nat, j: nat, n: nat): nat
    requires head < n && j < n
  {
    if j >= head then j - head else j + n - head
  }

  /** The slot k places behind head. */
  function Slot(head: nat, k: nat, n: nat): nat
    requires head < n && k <= n
  {
    if head + k < n then head + k else head + k - n
  }

  /** The remainder the source takes is a wrap by at most one turn. */
  lemma Wrap(k: nat, n: nat)
    requires 0 < n && k < 2 * n
    ensures k % n == if k < n then k else k - n
  {
    if k >= n { assert k % n == (k - n) % n; }
  }

  /** num_threads and queue_size after thread_pool_create has checked them. */
  function Sizes(numThreads: int, queueSize: int): (r: (int, int))
    ensures 1 <= r.0 <= MAX_THREADS && 1 <= r.1 <= MAX_QUEUE
    ensures if 1 <= numThreads <= MAX_THREADS && 1 <= queueSize <= MAX_QUEUE then r == (numThreads, queueSize)
            else r == (4, 1024)
  {
    if numThreads <= 0 || numThreads > MAX_THREADS || queueSize <= 0 || queueSize > MAX_QUEUE then (4, 1024)
    else (numThreads, queueSize)
  }

  class ThreadPool {
    var queue: array<Option<Task>>
    var head: nat
    var tail: nat
    var count: nat
    var shutdown: Shutdown
    var started: nat
    var threadCount: nat
    ghost var contents: seq<Task>   // the queued tasks, oldest first

    ghost predicate Valid()
      reads this, queue
    {
      && 0 < queue.Length && head < queue.Length && count == |contents| <= queue.Length
      && tail == Slot(head, count, queue.Length)
      && forall j :: 0 <= j < queue.Length ==>
           var k := Offset(head, j, queue.Length);
           queue[j] == if k < count then Some(contents[k]) else None
    }

    ghost function State(): Core
      reads this
    {
      Core(contents, queue.Length, shutdown, started)
    }

    /** The tail index the source keeps is the one the remainder gives. */
    lemma TailIsRemainder()
      requires Valid()
      ensures tail == (head + count) % queue.Length
    {
      Wrap(head + count, queue.Length);
    }

    /** thread_pool_create, up to starting the threads. */
    constructor (queueSize: int)
      requires 0 < queueSize
      ensures Valid() && fresh(queue) && State() == Core([], queueSize, Open, 0) && threadCount == 0
    {
      head, tail, count, shutdown, contents := 0, 0, 0, Open, [];
      started, threadCount := 0, 0;
      queue := new Option<Task>[queueSize](_ => None);
    }

    /** Starting the threads; pthread_create succeeds for the first launched of them. */
    method Launch(numThreads: int, launched: nat) returns (error: int)
      requires Valid() && started == threadCount == 0 && 0 < numThreads
      modifies this`started, this`threadCount
      ensures Valid() && started == threadCount == if launched < numThreads then launched else numThreads
      ensures State() == old(State()).(started := started)
      ensures error == if launched < numThreads then CREATE_FAILED else 0
    {
      for i := 0 to numThreads
        invariant threadCount == started == i <= launched
      {
        if i == launched {
          return CREATE_FAILED;
        }
        threadCount := threadCount + 1;
        started := started + 1;
      }
      error := 0;
    }

    /** The critical section of thread_pool_add: a full ring is refused first, then a pool that
        is shut down; otherwise the task goes in last. */
    method Add(task: Task) returns (error: int)
      requires Valid()
      modifies this, queue
      ensures Valid() && queue == old(queue)
      ensures error == if old(|contents|) == queue.Length then -3 else if old(shutdown) != Open then -4 else 0
      ensures contents == if error == 0 then old(contents) + [task] else old(contents)
      ensures shutdown == old(shutdown) && started == old(started)
      ensures error == AddCode(old(State())) && State() == Added(old(State()), task)
    {
      Wrap(tail + 1, queue.Length);
      var next := (tail + 1) % queue.Length;
      if count == queue.Length {
        return QUEUE_FULL;
      }
      if shutdown != Open {
        return SHUT_DOWN;
      }
      queue[tail] := Some(task);
      contents := contents + [task];
      tail := next;
      count := count + 1;
      error := 0;
    }

    /** Taking the oldest task, with its slot cleared. */
    method TakeFirst() returns (task: Task)
      requires Valid() && count > 0
      modifies this`head, this`count, this`contents, queue
      ensures Valid() && queue == old(queue)
      ensures [task] + contents == old(contents)
    {
      Wrap(head + 1, queue.Length);
      assert Offset(head, head, queue.Length) == 0;
      task := queue[head].value;
      queue[head] := None;
      head := (head + 1) % queue.Length;
      count := count - 1;
      contents := contents[1..];
    }

    /** What a worker does with the lock held: wait, leave, or take the oldest task. */
    method Check() returns (verdict: Verdict)
      requires Valid() && started > 0
      modifies this, queue
      ensures Valid() && queue == old(queue)
      ensures verdict.Wait? <==> old(contents) == [] && old(shutdown) == Open
      ensures verdict.Leave? <==> old(shutdown) == Immediate || (old(shutdown) == Graceful && old(contents) == [])
      ensures if verdict.Take? then [verdict.task] + contents == old(contents) else contents == old(contents)
      ensures started == (if verdict.Leave? then old(started) - 1 else old(started)) && shutdown == old(shutdown)
      ensures verdict == CheckVerdict(old(State())) && State() == Checked(old(State()))
    {
      if count == 0 && shutdown == Open {
        return Wait;
      }
      if shutdown == Immediate || (shutdown == Graceful && count == 0) {
        started := started - 1;
        return Leave;
      }
      var task := TakeFirst();
      verdict := Take(task);
    }

    /** The first half of thread_pool_destory. */
    method BeginShutdown(how: Shutdown) returns (error: int)
      requires Valid() && how != Open
      modifies this`shutdown
      ensures Valid()
      ensures error == (if old(shutdown) == Open then 0 else SHUT_DOWN)
      ensures State() == if error == 0 then old(State()).(shutdown := how) else old(State())
    {
      if shutdown != Open {
        return SHUT_DOWN;
      }
      shutdown := how;
      error := 0;
    }

    /** Whether a step of the protocol can be taken now. */
    method CanTake(workers: seq<Worker>, step: Step) returns (can: bool)
      requires Valid()
      ensures can <==> Enabled(Pool(State(), workers), step)
    {
      match step
      case Add(task, woken) =>
        if count < queue.Length && shutdown == Open {
          can := (forall i :: i in woken ==> Sleeps(workers, i)) && (SomeoneSleeps(workers) ==> woken != {});
        } else {
          can := woken == {};
        }
      case Check(i) => can := i < |workers| && workers[i].Ready?;
      case Finish(i) => can := i < |workers| && workers[i].Running?;
      case Spurious(i) => can := Sleeps(workers, i);
      case Destroy(how) => can := how != Open && shutdown == Open;
    }

    method Act(workers: seq<Worker>, step: Step) returns (after: seq<Worker>)
      requires Valid() && Enabled(Pool(State(), workers), step) && (step.Check? ==> started > 0)
      modifies this, queue
      ensures Valid() && queue == old(queue)
      ensures Pool(State(), after) == Next(Pool(old(State()), workers), step)
    {
      match step
      case Add(task, woken) =>
        var _ := Add(task);
        after := Awakened(workers, woken);
      case Check(i) =>
        var verdict := Check();
        after := workers[i := match verdict case Wait => Asleep case Leave => Exited case Take(task) => Running(task)];
      case Finish(i) => after := workers[i := Ready];
      case Spurious(i) => after := workers[i := Ready];
      case Destroy(how) =>
        var _ := BeginShutdown(how);
        after := Broadcast(workers);
    }

    /** Any schedule of adders, workers and a destroyer on the ring is a run of the protocol,
        so all that is proved of runs holds of it. */
    method Drive(steps: seq<Step>) returns (workers: seq<Worker>, ghost h: History)
      requires Valid() && State() == Begin(started, queue.Length).core
      modifies this, queue
      ensures Valid() && queue == old(queue)
      ensures (Pool(State(), workers), h) == Run(Begin(old(started), old(queue.Length)), History([], [], []), steps)
    {
      ghost var begin, blank := Begin(started, queue.Length), History([], [], []);
      workers, h := seq(started, _ => Ready), blank;
      for i := 0 to |steps|
        invariant Valid() && queue == old(queue)
        invariant (Pool(State(), workers), h) == Run(begin, blank, steps[..i])
      {
        EveryRunIsHealthy(begin.core.started, begin.core.capacity, steps[..i]);
        RunSnoc(begin, blank, steps[..i], steps[i]);
        assert steps[..i + 1] == steps[..i] + [steps[i]];
        var can := CanTake(workers, steps[i]);
        if can {
          h := Noted(Pool(State(), workers), h, steps[i]);
          TotalZero(workers);
          workers := Act(workers, steps[i]);
        }
      }
      assert steps[..|steps|] == steps;
    }
  }

  /** thread_pool_create. */
  method Create(numThreads: int, queueSize: int, launched: nat) returns (pool: ThreadPool, error: int)
    ensures fresh(pool) && fresh(pool.queue) && pool.Valid()
    ensures error == if launched < Sizes(numThreads, queueSize).0 then CREATE_FAILED else 0
    ensures pool.State() == Begin(pool.started, Sizes(numThreads, queueSize).1).core
    ensures error == 0 ==> pool.started == Sizes(numThreads, queueSize).0
  {
    var (n, q) := Sizes(numThreads, queueSize);
    pool := new ThreadPool(q);
    error := pool.Launch(n, launched);
  }
}
