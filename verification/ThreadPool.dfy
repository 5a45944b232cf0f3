/** The worker pool (ThreadPool.cpp) as steps of any number of workers, any adders and one
    destroyer. The mutex makes every critical section one step; a condition variable wakes
    at least one waiter on signal, all on broadcast, and any of them spuriously. */
module PoolProtocol {
  type Task = nat

  datatype Shutdown = Open | Immediate | Graceful

  const QUEUE_FULL: int := -3
  const SHUT_DOWN: int := -4

  /** What the mutex protects. */
  datatype Core = Core(queue: seq<Task>, capacity: nat, shutdown: Shutdown, started: nat)

  /** A worker is on its way to the queue check, waiting on the condition variable, running
      a task, or gone. */
  datatype Worker = Ready | Asleep | Running(task: Task) | Exited

  datatype Pool = Pool(core: Core, workers: seq<Worker>)

  /** What a run leaves behind: tasks accepted, taken and finished, each in order. */
  datatype History = History(accepted: seq<Task>, taken: seq<Task>, finished: seq<Task>)

  datatype Step =
    | Add(task: Task, woken: set<nat>)   // thread_pool_add, and the workers its signal wakes
    | Check(i: nat)                      // worker i holds the lock at the queue check
    | Finish(i: nat)                     // worker i has run its task
    | Spurious(i: nat)                   // worker i wakes without a signal
    | Destroy(how: Shutdown)             // thread_pool_destory up to the joins

  // ---------------------------------------------------------------- critical sections

  function AddCode(c: Core): int {
    if |c.queue| == c.capacity then QUEUE_FULL else if c.shutdown != Open then SHUT_DOWN else 0
  }

  function Added(c: Core, task: Task): Core {
    if AddCode(c) == 0 then c.(queue := c.queue + [task]) else c
  }

  /** The outcome of the queue check: wait, leave the loop, or take the first task. */
  datatype Verdict = Wait | Leave | Take(task: Task)

  function CheckVerdict(c: Core): Verdict {
    if c.queue == [] && c.shutdown.Open? then Wait
    else if c.shutdown.Immediate? || (c.shutdown.Graceful? && c.queue == []) then Leave
    else Take(c.queue[0])
  }

  function Checked(c: Core): Core {
    match CheckVerdict(c)
    case Wait => c
    case Leave => if c.started > 0 then c.(started := c.started - 1) else c
    case Take(_) => c.(queue := c.queue[1..])
  }

  // ---------------------------------------------------------------- steps

  predicate Sleeps(ws: seq<Worker>, i: nat) {
    i < |ws| && ws[i].Asleep?
  }

  function Awakened(ws: seq<Worker>, woken: set<nat>): (r: seq<Worker>)
    ensures |r| == |ws|
    ensures forall i :: 0 <= i < |ws| ==> r[i] == if i in woken && ws[i].Asleep? then Ready else ws[i]
  {
    seq(|ws|, i requires 0 <= i < |ws| => if i in woken && ws[i].Asleep? then Ready else ws[i])
  }

  function Broadcast(ws: seq<Worker>): (r: seq<Worker>)
    ensures |r| == |ws|
    ensures forall i :: 0 <= i < |ws| ==> r[i] == if ws[i].Asleep? then Ready else ws[i]
  {
    seq(|ws|, i requires 0 <= i < |ws| => if ws[i].Asleep? then Ready else ws[i])
  }

  predicate SomeoneSleeps(ws: seq<Worker>) {
    exists i :: 0 <= i < |ws| && ws[i].Asleep?
  }

  predicate Enabled(s: Pool, step: Step) {
    match step
    case Add(task, woken) =>
      if AddCode(s.core) == 0 then
        (forall i :: i in woken ==> Sleeps(s.workers, i)) && (SomeoneSleeps(s.workers) ==> woken != {})
      else woken == {}
    case Check(i) => i < |s.workers| && s.workers[i].Ready?
    case Finish(i) => i < |s.workers| && s.workers[i].Running?
    case Spurious(i) => Sleeps(s.workers, i)
    case Destroy(how) => how != Open && s.core.shutdown == Open
  }

  function AfterCheck(c: Core): Worker {
    match CheckVerdict(c)
    case Wait => Asleep
    case Leave => Exited
    case Take(task) => Running(task)
  }

  function Next(s: Pool, step: Step): Pool
    requires Enabled(s, step)
  {
    match step
    case Add(task, woken) => Pool(Added(s.core, task), Awakened(s.workers, woken))
    case Check(i) => Pool(Checked(s.core), s.workers[i := AfterCheck(s.core)])
    case Finish(i) => s.(workers := s.workers[i := Ready])
    case Spurious(i) => s.(workers := s.workers[i := Ready])
    case Destroy(how) => Pool(s.core.(shutdown := how), Broadcast(s.workers))
  }

  function Noted(s: Pool, h: History, step: Step): History
    requires Enabled(s, step)
  {
    match step
    case Add(task, _) => if AddCode(s.core) == 0 then h.(accepted := h.accepted + [task]) else h
    case Check(_) => if CheckVerdict(s.core).Take? then h.(taken := h.taken + [s.core.queue[0]]) else h
    case Finish(i) => h.(finished := h.finished + [s.workers[i].task])
    case _ => h
  }

  function Begin(workers: nat, capacity: nat): Pool {
    Pool(Core([], capacity, Open, workers), seq(workers, _ => Ready))
  }

  /** A run from a given state; a step that is not enabled there is skipped. */
  function Run(s: Pool, h: History, steps: seq<Step>): (Pool, History)
    decreases |steps|
  {
    if steps == [] then (s, h)
    else if Enabled(s, steps[0]) then Run(Next(s, steps[0]), Noted(s, h, steps[0]), steps[1..])
    else Run(s, h, steps[1..])
  }

  // ---------------------------------------------------------------- counting workers

  datatype Kind = Heading | Live | Load | Runs(task: Task)

  /** Heading counts workers going to the queue check, Live those not gone, Load the steps
      a worker still has to take once the pool is shut down, Runs those running a task. */
  function Worth(w: Worker, k: Kind): nat {
    match k
    case Heading => if w.Ready? then 1 else 0
    case Live => if w.Exited? then 0 else 1
    case Load => if w.Exited? then 0 else if w.Running? then 2 else 1
    case Runs(task) => if w == Running(task) then 1 else 0
  }

  function Total(ws: seq<Worker>, k: Kind): nat {
    if ws == [] then 0 else Worth(ws[0], k) + Total(ws[1..], k)
  }

  lemma {:induction false} TotalUpdate(ws: seq<Worker>, i: nat, w: Worker, k: Kind)
    requires i < |ws|
    ensures Total(ws[i := w], k) == Total(ws, k) - Worth(ws[i], k) + Worth(w, k)
  {
    if i == 0 {
      assert ws[i := w][1..] == ws[1..];
    } else {
      assert ws[i := w][1..] == ws[1..][i - 1 := w];
      TotalUpdate(ws[1..], i - 1, w, k);
    }
  }

  lemma {:induction false} TotalMonotone(ws: seq<Worker>, vs: seq<Worker>, k: Kind)
    requires |ws| == |vs| && forall i :: 0 <= i < |ws| ==> Worth(ws[i], k) <= Worth(vs[i], k)
    ensures Total(ws, k) <= Total(vs, k)
    ensures (exists i :: 0 <= i < |ws| && Worth(ws[i], k) < Worth(vs[i], k)) ==> Total(ws, k) < Total(vs, k)
  {
    if ws != [] {
      TotalMonotone(ws[1..], vs[1..], k);
      if i :| 0 < i < |ws| && Worth(ws[i], k) < Worth(vs[i], k) {
        assert ws[1..][i - 1] == ws[i] && vs[1..][i - 1] == vs[i];
      }
    }
  }

  lemma {:induction false} TotalBegin(n: nat)
    ensures Total(seq(n, _ => Ready), Live) == n
  {
    if n > 0 {
      assert seq(n, _ => Ready)[1..] == seq(n - 1, _ => Ready);
      TotalBegin(n - 1);
    }
  }

  lemma {:induction false} TotalZero(ws: seq<Worker>)
    ensures Total(ws, Live) == 0 <==> forall i :: 0 <= i < |ws| ==> ws[i].Exited?
  {
    if ws != [] {
      TotalZero(ws[1..]);
      assert (forall i :: 0 <= i < |ws| ==> ws[i].Exited?)
             <==> ws[0].Exited? && forall i :: 0 <= i < |ws[1..]| ==> ws[1..][i].Exited?;
    }
  }

  lemma {:induction false} NoneRunning(ws: seq<Worker>, task: Task)
    requires forall i :: 0 <= i < |ws| ==> !ws[i].Running?
    ensures Total(ws, Runs(task)) == 0
  {
    if ws != [] { NoneRunning(ws[1..], task); }
  }

  // ---------------------------------------------------------------- invariants

  /** No wakeup is lost: while a worker sleeps, enough others are on their way. */
  predicate NoLostWakeup(s: Pool) {
    SomeoneSleeps(s.workers) ==> |s.core.queue| <= Total(s.workers, Heading)
  }

  predicate Healthy(s: Pool) {
    && NoLostWakeup(s)
    && (s.core.shutdown != Open ==> !SomeoneSleeps(s.workers))
    && s.core.started == Total(s.workers, Live)
    && |s.core.queue| <= s.core.capacity
    && (s.core.shutdown == Open ==> s.core.started == |s.workers|)
    && (s.core.shutdown == Graceful && s.core.started < |s.workers| ==> s.core.queue == [])
  }

  /** Tasks are taken in the order accepted, and each is run by one worker. */
  ghost predicate Accounted(s: Pool, h: History) {
    && h.accepted == h.taken + s.core.queue
    && forall task :: multiset(h.taken)[task] == multiset(h.finished)[task] + Total(s.workers, Runs(task))
  }

  lemma AddKeeps(s: Pool, task: Task, woken: set<nat>)
    requires Healthy(s) && Enabled(s, Add(task, woken))
    ensures Healthy(Next(s, Add(task, woken)))
  {
    var t := Next(s, Add(task, woken));
    TotalMonotone(s.workers, t.workers, Heading);
    TotalMonotone(s.workers, t.workers, Live);
    TotalMonotone(t.workers, s.workers, Live);
    if SomeoneSleeps(t.workers) {
      assert SomeoneSleeps(s.workers);
      if AddCode(s.core) == 0 {
        var i :| i in woken;
        assert Sleeps(s.workers, i);
        assert Worth(s.workers[i], Heading) < Worth(t.workers[i], Heading);
      }
    }
  }

  lemma CheckKeeps(s: Pool, i: nat)
    requires Healthy(s) && Enabled(s, Check(i))
    ensures Healthy(Next(s, Check(i)))
  {
    var w := AfterCheck(s.core);
    TotalUpdate(s.workers, i, w, Heading);
    TotalUpdate(s.workers, i, w, Live);
    OthersSleep(s.workers, i, w);
  }

  lemma OthersSleep(ws: seq<Worker>, i: nat, w: Worker)
    requires i < |ws| && !ws[i].Asleep?
    ensures SomeoneSleeps(ws[i := w]) ==> w.Asleep? || SomeoneSleeps(ws)
  {
  }

  lemma WakeKeeps(s: Pool, step: Step)
    requires Healthy(s) && Enabled(s, step) && (step.Finish? || step.Spurious?)
    ensures Healthy(Next(s, step))
  {
    var i := step.i;
    var t := Next(s, step);
    TotalUpdate(s.workers, i, Ready, Heading);
    TotalUpdate(s.workers, i, Ready, Live);
    if SomeoneSleeps(t.workers) {
      var k :| 0 <= k < |t.workers| && t.workers[k].Asleep?;
      assert s.workers[k].Asleep?;
    }
  }

  lemma DestroyKeeps(s: Pool, how: Shutdown)
    requires Healthy(s) && Enabled(s, Destroy(how))
    ensures Healthy(Next(s, Destroy(how)))
  {
    var t := Next(s, Destroy(how));
    TotalMonotone(s.workers, t.workers, Live);
    TotalMonotone(t.workers, s.workers, Live);
  }

  lemma StepKeepsHealthy(s: Pool, step: Step)
    requires Healthy(s) && Enabled(s, step)
    ensures Healthy(Next(s, step))
  {
    match step
    case Add(task, woken) => AddKeeps(s, task, woken);
    case Check(i) => CheckKeeps(s, i);
    case Finish(_) => WakeKeeps(s, step);
    case Spurious(_) => WakeKeeps(s, step);
    case Destroy(how) => DestroyKeeps(s, how);
  }

  lemma {:induction false} SameTotal(ws: seq<Worker>, vs: seq<Worker>, k: Kind)
    requires |ws| == |vs| && forall i :: 0 <= i < |ws| ==> Worth(ws[i], k) == Worth(vs[i], k)
    ensures Total(ws, k) == Total(vs, k)
  {
    if ws != [] { SameTotal(ws[1..], vs[1..], k); }
  }

  lemma CheckRuns(s: Pool, h: History, i: nat, task: Task)
    requires Enabled(s, Check(i))
    ensures var k := Noted(s, h, Check(i)); var t := Next(s, Check(i));
            multiset(k.taken)[task] - multiset(h.taken)[task]
            == Total(t.workers, Runs(task)) - Total(s.workers, Runs(task))
            && k.finished == h.finished
  {
    TotalUpdate(s.workers, i, AfterCheck(s.core), Runs(task));
  }

  lemma FinishRuns(s: Pool, h: History, i: nat, task: Task)
    requires Enabled(s, Finish(i))
    ensures var k := Noted(s, h, Finish(i)); var t := Next(s, Finish(i));
            multiset(k.finished)[task] - multiset(h.finished)[task]
            == Total(s.workers, Runs(task)) - Total(t.workers, Runs(task))
            && k.taken == h.taken
  {
    TotalUpdate(s.workers, i, Ready, Runs(task));
  }

  lemma StepRuns(s: Pool, h: History, step: Step, task: Task)
    requires Enabled(s, step)
    requires multiset(h.taken)[task] == multiset(h.finished)[task] + Total(s.workers, Runs(task))
    ensures var k := Noted(s, h, step);
            multiset(k.taken)[task] == multiset(k.finished)[task] + Total(Next(s, step).workers, Runs(task))
  {
    match step
    case Check(i) => CheckRuns(s, h, i, task);
    case Finish(i) => FinishRuns(s, h, i, task);
    case _ => SameTotal(s.workers, Next(s, step).workers, Runs(task));
  }

  lemma StepKeepsAccounts(s: Pool, h: History, step: Step)
    requires Accounted(s, h) && Enabled(s, step)
    ensures Accounted(Next(s, step), Noted(s, h, step))
  {
    forall task: Task
      ensures multiset(Noted(s, h, step).taken)[task]
              == multiset(Noted(s, h, step).finished)[task] + Total(Next(s, step).workers, Runs(task))
    {
      StepRuns(s, h, step, task);
    }
  }

  // ---------------------------------------------------------------- whole runs

  lemma {:induction false} RunKeeps(s: Pool, h: History, steps: seq<Step>)
    requires Healthy(s) && Accounted(s, h)
    ensures var (t, k) := Run(s, h, steps); Healthy(t) && Accounted(t, k)
    decreases |steps|
  {
    if steps != [] {
      if Enabled(s, steps[0]) {
        StepKeepsHealthy(s, steps[0]);
        StepKeepsAccounts(s, h, steps[0]);
        RunKeeps(Next(s, steps[0]), Noted(s, h, steps[0]), steps[1..]);
      } else {
        RunKeeps(s, h, steps[1..]);
      }
    }
  }

  lemma {:induction false} RunSnoc(s: Pool, h: History, steps: seq<Step>, step: Step)
    ensures var (t, k) := Run(s, h, steps);
            Run(s, h, steps + [step]) == if Enabled(t, step) then (Next(t, step), Noted(t, k, step)) else (t, k)
    decreases |steps|
  {
    if steps == [] {
      assert steps + [step] == [step] && [step][1..] == [];
    } else {
      assert (steps + [step])[1..] == steps[1..] + [step];
      if Enabled(s, steps[0]) {
        RunSnoc(Next(s, steps[0]), Noted(s, h, steps[0]), steps[1..], step);
      } else {
        RunSnoc(s, h, steps[1..], step);
      }
    }
  }

  /** In every reachable state of every pool no wakeup is lost, started_ counts the live
      workers, and every accepted task is queued or was taken, once and in order. */
  lemma EveryRunIsHealthy(workers: nat, capacity: nat, steps: seq<Step>)
    ensures var (t, k) := Run(Begin(workers, capacity), History([], [], []), steps);
            Healthy(t) && Accounted(t, k)
  {
    TotalBegin(workers);
    forall task: Task ensures Total(Begin(workers, capacity).workers, Runs(task)) == 0 {
      NoneRunning(Begin(workers, capacity).workers, task);
    }
    RunKeeps(Begin(workers, capacity), History([], [], []), steps);
  }

  /** Tasks do not wait in vain: while one is queued and a worker lives, some worker is running
      a task or can come to the queue, awake, and will not wait there. */
  lemma QueuedTaskMoves(s: Pool)
    requires Healthy(s) && s.core.queue != [] && s.core.started > 0
    ensures exists i: nat :: Enabled(s, Check(i)) || Enabled(s, Finish(i))
    ensures CheckVerdict(s.core) != Wait
  {
    TotalZero(s.workers);
    if SomeoneSleeps(s.workers) {
      SomeHeading(s.workers);
      var i: nat :| i < |s.workers| && s.workers[i].Ready?;
      assert Enabled(s, Check(i));
    } else {
      var i: nat :| i < |s.workers| && !s.workers[i].Exited?;
      assert Enabled(s, Check(i)) || Enabled(s, Finish(i));
    }
  }

  lemma {:induction false} SomeHeading(ws: seq<Worker>)
    ensures Total(ws, Heading) > 0 ==> exists i: nat :: i < |ws| && ws[i].Ready?
  {
    if ws != [] && !ws[0].Ready? {
      SomeHeading(ws[1..]);
      if i: nat :| i < |ws[1..]| && ws[1..][i].Ready? { assert ws[i + 1].Ready?; }
    }
  }

  /** So in every reachable state. */
  lemma EveryRunMoves(workers: nat, capacity: nat, steps: seq<Step>)
    ensures var t := Run(Begin(workers, capacity), History([], [], []), steps).0;
            t.core.queue != [] && t.core.started > 0 ==>
              exists i: nat :: Enabled(t, Check(i)) || Enabled(t, Finish(i))
  {
    EveryRunIsHealthy(workers, capacity, steps);
    var t := Run(Begin(workers, capacity), History([], [], []), steps).0;
    if t.core.queue != [] && t.core.started > 0 { QueuedTaskMoves(t); }
  }

  // ---------------------------------------------------------------- what is accepted and what is taken

  /** The tasks of the adds that find the pool open and fewer than capacity tasks queued. */
  function Admitted(s: Pool, steps: seq<Step>): seq<Task>
    decreases |steps|
  {
    if steps == [] then []
    else if !Enabled(s, steps[0]) then Admitted(s, steps[1..])
    else
      var c := s.core;
      (if steps[0].Add? && c.shutdown == Open && |c.queue| < c.capacity then [steps[0].task] else [])
      + Admitted(Next(s, steps[0]), steps[1..])
  }

  /** An add goes through in every state: with room in an open pool its task comes last and
      somebody sleeping is woken; otherwise nothing changes. */
  lemma AddHappens(s: Pool, task: Task) returns (woken: set<nat>)
    requires |s.core.queue| <= s.core.capacity
    ensures Enabled(s, Add(task, woken))
    ensures var t := Next(s, Add(task, woken));
            if s.core.shutdown == Open && |s.core.queue| < s.core.capacity
            then t.core == s.core.(queue := s.core.queue + [task])
                 && (SomeoneSleeps(s.workers) ==>
                       exists i :: 0 <= i < |s.workers| && s.workers[i].Asleep? && t.workers[i].Ready?)
            else t == s
  {
    woken := {};
    if SomeoneSleeps(s.workers) && s.core.shutdown == Open && |s.core.queue| < s.core.capacity {
      var i :| 0 <= i < |s.workers| && s.workers[i].Asleep?;
      woken := {i};
    } else {
      assert Awakened(s.workers, {}) == s.workers;
    }
  }

  /** What a worker at the queue check does: it waits on an empty queue of an open pool, leaves
      at once on immediate and behind the last task on graceful shutdown, and otherwise takes
      the oldest task. */
  lemma CheckDoes(s: Pool, i: nat)
    requires i < |s.workers| && s.workers[i].Ready? && s.core.started > 0
    ensures Enabled(s, Check(i))
    ensures var t := Next(s, Check(i)); var c := s.core;
            if c.shutdown == Immediate || (c.shutdown == Graceful && |c.queue| == 0)
            then t == Pool(c.(started := c.started - 1), s.workers[i := Exited])
            else if |c.queue| == 0 then t == s.(workers := s.workers[i := Asleep])
            else t == Pool(c.(queue := c.queue[1..]), s.workers[i := Running(c.queue[0])])
  {
  }

  lemma AdmittedStep(s: Pool, h: History, step: Step)
    requires Healthy(s) && Enabled(s, step)
    ensures Noted(s, h, step).accepted
         == h.accepted
            + if step.Add? && s.core.shutdown == Open && |s.core.queue| < s.core.capacity then [step.task] else []
  {
  }

  /** Accepted is exactly what was added while the pool was open and not full. */
  lemma {:induction false} AcceptedIsAdmitted(s: Pool, h: History, steps: seq<Step>)
    requires Healthy(s)
    ensures Run(s, h, steps).1.accepted == h.accepted + Admitted(s, steps)
    decreases |steps|
  {
    if steps != [] {
      if Enabled(s, steps[0]) {
        StepKeepsHealthy(s, steps[0]);
        AdmittedStep(s, h, steps[0]);
        AcceptedIsAdmitted(Next(s, steps[0]), Noted(s, h, steps[0]), steps[1..]);
      } else {
        AcceptedIsAdmitted(s, h, steps[1..]);
      }
    }
  }

  /** So over every run of a new pool: what was admitted was taken, in order, or is queued. */
  lemma EveryRunAdmits(workers: nat, capacity: nat, steps: seq<Step>)
    ensures var begin := Begin(workers, capacity);
            var (t, k) := Run(begin, History([], [], []), steps);
            k.accepted == Admitted(begin, steps) == k.taken + t.core.queue
  {
    EveryRunIsHealthy(workers, capacity, steps);
    TotalBegin(workers);
    AcceptedIsAdmitted(Begin(workers, capacity), History([], [], []), steps);
  }

  /** After an immediate shutdown no further task is taken, whatever is queued. */
  lemma {:induction false} ImmediateTakesNoMore(s: Pool, h: History, steps: seq<Step>)
    requires s.core.shutdown == Immediate
    ensures var (t, k) := Run(s, h, steps);
            t.core.shutdown == Immediate && t.core.queue == s.core.queue
            && k.taken == h.taken && k.accepted == h.accepted
    decreases |steps|
  {
    if steps != [] {
      if Enabled(s, steps[0]) {
        ImmediateTakesNoMore(Next(s, steps[0]), Noted(s, h, steps[0]), steps[1..]);
      } else {
        ImmediateTakesNoMore(s, h, steps[1..]);
      }
    }
  }

  // ---------------------------------------------------------------- shutdown

  predicate IsWorkerStep(step: Step) {
    step.Check? || step.Finish? || step.Spurious?
  }

  /** Worker steps a run really takes. */
  function WorkerSteps(s: Pool, steps: seq<Step>): nat
    decreases |steps|
  {
    if steps == [] then 0
    else if Enabled(s, steps[0]) then
      (if IsWorkerStep(steps[0]) then 1 else 0) + WorkerSteps(Next(s, steps[0]), steps[1..])
    else WorkerSteps(s, steps[1..])
  }

  function Measure(s: Pool): nat {
    2 * |s.core.queue| + Total(s.workers, Load)
  }

  lemma ShutdownStep(s: Pool, step: Step)
    requires Healthy(s) && s.core.shutdown != Open && Enabled(s, step)
    ensures Next(s, step).core.shutdown == s.core.shutdown
    ensures if IsWorkerStep(step) then Measure(Next(s, step)) < Measure(s) else Measure(Next(s, step)) == Measure(s)
  {
    match step
    case Check(i) => TotalUpdate(s.workers, i, AfterCheck(s.core), Load);
    case Finish(i) => TotalUpdate(s.workers, i, Ready, Load);
    case Spurious(i) => assert false;
    case Add(_, woken) => assert Awakened(s.workers, {}) == s.workers;
    case Destroy(_) =>
  }

  /** After the destroy call no worker sleeps again, the workers take at most Measure steps
      whatever the adders do, and until all have left one of them can move. */
  lemma {:induction false} ShutdownEnds(s: Pool, h: History, steps: seq<Step>)
    requires Healthy(s) && Accounted(s, h) && s.core.shutdown != Open
    ensures var t := Run(s, h, steps).0;
            t.core.shutdown == s.core.shutdown && !SomeoneSleeps(t.workers)
            && WorkerSteps(s, steps) + Measure(t) <= Measure(s)
            && (t.core.started > 0 <==> exists i: nat :: Enabled(t, Check(i)) || Enabled(t, Finish(i)))
    decreases |steps|
  {
    RunKeeps(s, h, steps);
    if steps == [] {
      TotalZero(s.workers);
      if s.core.started > 0 {
        var i: nat :| i < |s.workers| && !s.workers[i].Exited?;
        assert Enabled(s, Check(i)) || Enabled(s, Finish(i));
      }
    } else if Enabled(s, steps[0]) {
      StepKeepsHealthy(s, steps[0]);
      StepKeepsAccounts(s, h, steps[0]);
      ShutdownStep(s, steps[0]);
      ShutdownEnds(Next(s, steps[0]), Noted(s, h, steps[0]), steps[1..]);
    } else {
      ShutdownEnds(s, h, steps[1..]);
    }
  }

  /** When the joins return (no worker can move): started_ is 0, a graceful shutdown has
      run every accepted task exactly once, an immediate one those it did not leave queued. */
  lemma AfterTheJoins(workers: nat, capacity: nat, steps: seq<Step>)
    requires var t := Run(Begin(workers, capacity), History([], [], []), steps).0;
             t.core.shutdown != Open && forall i :: 0 <= i < |t.workers| ==> t.workers[i].Exited?
    ensures var (t, k) := Run(Begin(workers, capacity), History([], [], []), steps);
            t.core.started == 0 && k.accepted == k.taken + t.core.queue && multiset(k.finished) == multiset(k.taken)
            && (t.core.shutdown == Graceful && workers > 0 ==> t.core.queue == [] && k.accepted == k.taken)
  {
    EveryRunIsHealthy(workers, capacity, steps);
    var (t, k) := Run(Begin(workers, capacity), History([], [], []), steps);
    TotalZero(t.workers);
    forall task: Task ensures multiset(k.finished)[task] == multiset(k.taken)[task] {
      NoneRunning(t.workers, task);
    }
    SameWorkers(Begin(workers, capacity), History([], [], []), steps);
  }

  lemma {:induction false} SameWorkers(s: Pool, h: History, steps: seq<Step>)
    ensures |Run(s, h, steps).0.workers| == |s.workers|
    decreases |steps|
  {
    if steps != [] {
      if Enabled(s, steps[0]) {
        SameWorkers(Next(s, steps[0]), Noted(s, h, steps[0]), steps[1..]);
      } else {
        SameWorkers(s, h, steps[1..]);
      }
    }
  }
}
