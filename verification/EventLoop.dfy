/** The event loop's cross-thread task queue (EventLoop.cpp): any threads queue tasks, the
    loop thread polls, handles events, swaps the queue out and runs it. A step is one
    critical section or one action of one thread. */
module LoopProtocol {
  type Task = nat

  /** Where the loop thread stands: before it has called loop(), and in loop() before its
      quit test, in epoll_wait, in the event handlers, with calling_pending_functors_ set but
      the queue not swapped out yet, running what it swapped out, in handle_expired, or gone. */
  datatype Phase = Outside | AtTest | Polling | Handling | Calling | Executing | Expiring | Stopped

  /** signal is the eventfd counter, unsent the number of threads between queueing a task
      (or asking to quit) and their wakeup, reported whether this poll saw the eventfd. */
  datatype Loop = Loop(pending: seq<Task>, batch: seq<Task>, calling: bool,
                       signal: nat, unsent: nat, reported: bool, phase: Phase, quit: bool)

  /** What a run leaves behind: tasks queued, in lock order, and tasks executed. */
  datatype History = History(queued: seq<Task>, executed: seq<Task>)

  const Begin := Loop([], [], false, 0, 0, false, Outside, false)
  const Blank := History([], [])

  datatype Step =
    | Push(task: Task)       // queue_in_loop by another thread: its critical section
    | PushOwn(task: Task)    // queue_in_loop by the loop thread
    | Send                   // a thread's write to the eventfd
    | QuitOther              // quit() by another thread
    | QuitOwn                // quit() by the loop thread
    | Enter                  // loop() is called: looping_ = true, quit_ = false
    | Test                   // while (!quit_)
    | Poll(io: bool)         // epoll_wait returns, perhaps because of other descriptors
    | Drain                  // handle_read of the wakeup channel
    | EndHandling            // calling_pending_functors_ = true
    | Swap                   // functor_list.swap(pending_functors_)
    | Execute                // the next task of the list
    | EndExecuting           // calling_pending_functors_ = false
    | EndExpiring

  /** Phases in which the loop thread runs code that may queue a task or ask to quit. */
  predicate RunsCode(phase: Phase) {
    phase.Outside? || phase.Handling? || phase.Executing? || phase.Expiring?
  }

  predicate Enabled(s: Loop, step: Step) {
    match step
    case Push(_) => true
    case PushOwn(_) => RunsCode(s.phase)
    case Send => s.unsent > 0
    case QuitOther => true
    case QuitOwn => RunsCode(s.phase)
    case Enter => s.phase.Outside?
    case Test => s.phase.AtTest?
    case Poll(io) => s.phase.Polling? && (s.signal > 0 || io)
    case Drain => s.phase.Handling? && s.reported
    case EndHandling => s.phase.Handling? && !s.reported
    case Swap => s.phase.Calling?
    case Execute => s.phase.Executing? && s.batch != []
    case EndExecuting => s.phase.Executing? && s.batch == []
    case EndExpiring => s.phase.Expiring?
  }

  function Next(s: Loop, step: Step): Loop
    requires Enabled(s, step)
  {
    match step
    case Push(task) => s.(pending := s.pending + [task], unsent := s.unsent + 1)
    case PushOwn(task) =>
      s.(pending := s.pending + [task], unsent := if s.calling then s.unsent + 1 else s.unsent)
    case Send => s.(unsent := s.unsent - 1, signal := s.signal + 1)
    case QuitOther => s.(quit := true, unsent := s.unsent + 1)
    case QuitOwn => s.(quit := true)
    case Enter => s.(phase := AtTest, quit := false)
    case Test => s.(phase := if s.quit then Stopped else Polling)
    case Poll(_) => s.(phase := Handling, reported := s.signal > 0)
    case Drain => s.(signal := 0, reported := false)
    case EndHandling => s.(phase := Calling, calling := true)
    case Swap => s.(batch := s.pending, pending := s.batch, phase := Executing)
    case Execute => s.(batch := s.batch[1..])
    case EndExecuting => s.(calling := false, phase := Expiring)
    case EndExpiring => s.(phase := AtTest)
  }

  function Noted(s: Loop, h: History, step: Step): History
    requires Enabled(s, step)
  {
    match step
    case Push(task) => h.(queued := h.queued + [task])
    case PushOwn(task) => h.(queued := h.queued + [task])
    case Execute => h.(executed := h.executed + [s.batch[0]])
    case _ => h
  }

  /** A run from a given state; a step that is not enabled there is skipped. */
  function Run(s: Loop, h: History, steps: seq<Step>): (Loop, History)
    decreases |steps|
  {
    if steps == [] then (s, h)
    else if Enabled(s, steps[0]) then Run(Next(s, steps[0]), Noted(s, h, steps[0]), steps[1..])
    else Run(s, h, steps[1..])
  }

  // ---------------------------------------------------------------- invariants

  /** A queued task will be seen: the eventfd is signalled, a wakeup is on its way, or the
      swap of this iteration is still to come. */
  predicate NotStranded(s: Loop) {
    s.pending != [] ==> s.signal > 0 || s.unsent > 0 || s.phase.Handling? || s.phase.Calling?
  }

  predicate Consistent(s: Loop) {
    && (s.calling <==> s.phase.Calling? || s.phase.Executing?)
    && (s.batch != [] ==> s.phase.Executing?)
    && (s.reported ==> s.phase.Handling?)
  }

  /** Tasks are executed once, in the order they were queued. */
  predicate Accounted(s: Loop, h: History) {
    h.executed + s.batch + s.pending == h.queued
  }

  /** The loop thread queues a task where no wakeup is sent for it and no swap is to come
      before the next poll: before it has called loop(), or in handle_expired. */
  predicate Unannounced(s: Loop, step: Step) {
    step.PushOwn? && (s.phase.Outside? || s.phase.Expiring?)
  }

  lemma StepKeeps(s: Loop, h: History, step: Step)
    requires Consistent(s) && Accounted(s, h) && Enabled(s, step)
    ensures Consistent(Next(s, step)) && Accounted(Next(s, step), Noted(s, h, step))
  {
  }

  /** Exactly one kind of step can strand a task: an unannounced push with no wakeup under
      way. */
  lemma StrandingStep(s: Loop, step: Step)
    requires Consistent(s) && NotStranded(s) && Enabled(s, step)
    ensures NotStranded(Next(s, step)) <==> !(Unannounced(s, step) && s.signal == 0 && s.unsent == 0)
  {
  }

  ghost predicate AllAnnounced(s: Loop, steps: seq<Step>)
    decreases |steps|
  {
    steps != [] ==>
      if Enabled(s, steps[0]) then !Unannounced(s, steps[0]) && AllAnnounced(Next(s, steps[0]), steps[1..])
      else AllAnnounced(s, steps[1..])
  }

  lemma {:induction false} RunKeeps(s: Loop, h: History, steps: seq<Step>)
    requires Consistent(s) && Accounted(s, h)
    ensures var (t, k) := Run(s, h, steps); Consistent(t) && Accounted(t, k)
    ensures NotStranded(s) && AllAnnounced(s, steps) ==> NotStranded(Run(s, h, steps).0)
    decreases |steps|
  {
    if steps != [] {
      if Enabled(s, steps[0]) {
        StepKeeps(s, h, steps[0]);
        if NotStranded(s) { StrandingStep(s, steps[0]); }
        RunKeeps(Next(s, steps[0]), Noted(s, h, steps[0]), steps[1..]);
      } else {
        RunKeeps(s, h, steps[1..]);
      }
    }
  }

  /** In every reachable state the executed tasks are a prefix of the queued ones, the rest
      being swapped out or pending; and unless the loop thread queued a task before loop() or
      from handle_expired, none is stranded. */
  lemma EveryRunDelivers(steps: seq<Step>)
    ensures var (t, k) := Run(Begin, Blank, steps);
            Accounted(t, k) && k.executed <= k.queued && (AllAnnounced(Begin, steps) ==> NotStranded(t))
  {
    RunKeeps(Begin, Blank, steps);
    var (t, k) := Run(Begin, Blank, steps);
    assert k.executed + t.batch + t.pending == k.executed + (t.batch + t.pending);
  }

  // ---------------------------------------------------------------- progress

  predicate IsProgress(step: Step) {
    step.Send? || step.Enter? || step.Test? || step == Poll(false) || step.Drain? || step.EndHandling? || step.Swap?
    || step.Execute? || step.EndExecuting? || step.EndExpiring?
  }

  /** A loop with tasks to run never waits for a foreign event: unless it has stopped, a
      pending wakeup or the loop thread itself can move. */
  lemma NeverStuck(s: Loop)
    requires Consistent(s) && NotStranded(s) && (s.pending != [] || s.batch != []) && !s.phase.Stopped?
    ensures exists step :: IsProgress(step) && Enabled(s, step)
  {
    var step := match s.phase
      case Outside => Enter
      case AtTest => Test
      case Polling => if s.signal > 0 then Poll(false) else Send
      case Handling => if s.reported then Drain else EndHandling
      case Calling => Swap
      case Executing => if s.batch != [] then Execute else EndExecuting
      case Expiring => EndExpiring
      case Stopped => Test;
    assert IsProgress(step) && Enabled(s, step);
  }

  function Executes(n: nat): seq<Step> {
    if n == 0 then [] else [Execute] + Executes(n - 1)
  }

  lemma {:induction false} RunConcat(s: Loop, h: History, a: seq<Step>, b: seq<Step>)
    ensures Run(s, h, a + b) == (var (t, k) := Run(s, h, a); Run(t, k, b))
    decreases |a|
  {
    if a == [] {
      assert a + b == b;
    } else {
      assert (a + b)[1..] == a[1..] + b;
      if Enabled(s, a[0]) {
        RunConcat(Next(s, a[0]), Noted(s, h, a[0]), a[1..], b);
      } else {
        RunConcat(s, h, a[1..], b);
      }
    }
  }

  lemma RunSnoc(s: Loop, h: History, steps: seq<Step>, step: Step)
    requires Enabled(Run(s, h, steps).0, step)
    ensures var (t, k) := Run(s, h, steps); Run(s, h, steps + [step]) == (Next(t, step), Noted(t, k, step))
  {
    RunConcat(s, h, steps, [step]);
    var (t, k) := Run(s, h, steps);
    assert [step][1..] == [];
    assert Run(t, k, [step]) == Run(Next(t, step), Noted(t, k, step), []);
  }

  lemma {:induction false} RunsBatch(s: Loop, h: History)
    requires s.phase.Executing?
    ensures Run(s, h, Executes(|s.batch|)) == (s.(batch := []), h.(executed := h.executed + s.batch))
    decreases |s.batch|
  {
    if s.batch == [] {
      assert h.executed + s.batch == h.executed;
    } else {
      var steps := Executes(|s.batch|);
      assert steps[1..] == Executes(|s.batch| - 1);
      RunsBatch(Next(s, Execute), Noted(s, h, Execute));
      assert h.executed + [s.batch[0]] + s.batch[1..] == h.executed + s.batch;
    }
  }

  /** One iteration of the loop thread on its own, from a poll the eventfd ends. */
  function Iteration(s: Loop): seq<Step> {
    [Poll(false), Drain, EndHandling, Swap] + Executes(|s.pending|) + [EndExecuting, EndExpiring, Test]
  }

  /** A signalled loop executes everything pending within one iteration. */
  lemma IterationRunsAll(s: Loop, h: History)
    requires Consistent(s) && s.phase.Polling? && s.signal > 0 && !s.quit
    ensures var (t, k) := Run(s, h, Iteration(s));
            k == h.(executed := h.executed + s.pending) && t == s.(pending := [], signal := 0)
  {
    var first, last := [Poll(false), Drain, EndHandling, Swap], [EndExecuting, EndExpiring, Test];
    var t1 := Next(s, Poll(false));
    var t2 := Next(t1, Drain);
    var t3 := Next(t2, EndHandling);
    var t4 := Next(t3, Swap);
    assert first[1..] == [Drain, EndHandling, Swap] && first[1..][1..] == [EndHandling, Swap]
           && first[1..][1..][1..] == [Swap] && first[1..][1..][1..][1..] == [];
    assert Run(t3, h, [Swap]) == Run(t4, h, []);
    assert Run(s, h, first) == (t4, h);
    RunsBatch(t4, h);
    var t5, k := t4.(batch := []), h.(executed := h.executed + s.pending);
    assert last[1..] == [EndExpiring, Test] && last[1..][1..] == [Test] && last[1..][1..][1..] == [];
    var t6 := Next(t5, EndExecuting);
    var t7 := Next(t6, EndExpiring);
    assert Run(t7, k, [Test]) == Run(Next(t7, Test), k, []);
    assert Run(t5, k, last) == (s.(pending := [], signal := 0), k);
    RunConcat(s, h, first, Executes(|s.pending|));
    RunConcat(s, h, first + Executes(|s.pending|), last);
  }

  /** The way to strand a task: queued by the loop thread before loop() or from
      handle_expired with no wakeup under way, it leaves the loop in epoll_wait with nothing
      to end it but foreign events. */
  lemma UnannouncedPushStrands(s: Loop, task: Task)
    requires Consistent(s) && (s.phase.Outside? || s.phase.Expiring?) && s.signal == 0 && s.unsent == 0
    requires s.phase.Outside? || !s.quit
    ensures var on := if s.phase.Outside? then Enter else EndExpiring;
            var t := Next(Next(Next(s, PushOwn(task)), on), Test);
            t.phase.Polling? && task in t.pending && forall step :: IsProgress(step) ==> !Enabled(t, step)
  {
  }

  // ---------------------------------------------------------------- quitting

  /** Asking to quit before loop() is forgotten: the loop starts all the same. */
  lemma EarlyQuitIsLost(s: Loop)
    requires s.phase.Outside?
    ensures var t := Next(Next(Next(s, QuitOther), Enter), Test);
            t.phase.Polling? && !t.quit
  {
  }

  predicate AsksToQuit(step: Step) {
    step.QuitOther? || step.QuitOwn?
  }

  /** Whether a run has asked to quit since loop() was entered; before that, at all. */
  function AskedSince(s: Loop, asked: bool, steps: seq<Step>): bool
    decreases |steps|
  {
    if steps == [] then asked
    else if !Enabled(s, steps[0]) then AskedSince(s, asked, steps[1..])
    else AskedSince(Next(s, steps[0]), !steps[0].Enter? && (asked || AsksToQuit(steps[0])), steps[1..])
  }

  lemma {:induction false} QuitIsAsked(s: Loop, h: History, steps: seq<Step>)
    ensures Run(s, h, steps).0.quit <==> AskedSince(s, s.quit, steps)
    decreases |steps|
  {
    if steps != [] {
      if Enabled(s, steps[0]) {
        QuitIsAsked(Next(s, steps[0]), Noted(s, h, steps[0]), steps[1..]);
      } else {
        QuitIsAsked(s, h, steps[1..]);
      }
    }
  }

  /** A loop asked to quit does not sleep in epoll_wait, and one that has stopped was asked. */
  predicate QuitSeen(s: Loop) {
    && (s.quit && s.phase.Polling? ==> s.signal > 0 || s.unsent > 0)
    && (s.phase.Stopped? ==> s.quit)
  }

  lemma {:induction false} QuitStaysSeen(s: Loop, h: History, steps: seq<Step>)
    requires QuitSeen(s)
    ensures QuitSeen(Run(s, h, steps).0)
    decreases |steps|
  {
    if steps != [] {
      if Enabled(s, steps[0]) {
        QuitStaysSeen(Next(s, steps[0]), Noted(s, h, steps[0]), steps[1..]);
      } else {
        QuitStaysSeen(s, h, steps[1..]);
      }
    }
  }

  /** In every reachable state quit_ is set exactly if quitting was asked for since loop() was
      entered; a loop so asked is never left sleeping in epoll_wait, and the loop stops only
      when asked. */
  lemma EveryRunHearsQuit(steps: seq<Step>)
    ensures var t := Run(Begin, Blank, steps).0;
            (t.quit <==> AskedSince(Begin, false, steps)) && QuitSeen(t)
  {
    QuitIsAsked(Begin, Blank, steps);
    QuitStaysSeen(Begin, Blank, steps);
  }

  /** Until it has stopped, a loop asked to quit can move without a foreign event. */
  lemma QuitMoves(s: Loop)
    requires s.quit && QuitSeen(s) && !s.phase.Stopped?
    ensures exists step :: IsProgress(step) && Enabled(s, step)
  {
    var step := match s.phase
      case Outside => Enter
      case AtTest => Test
      case Polling => if s.signal > 0 then Poll(false) else Send
      case Handling => if s.reported then Drain else EndHandling
      case Calling => Swap
      case Executing => if s.batch != [] then Execute else EndExecuting
      case Expiring => EndExpiring
      case Stopped => Test;
    assert IsProgress(step) && Enabled(s, step);
  }

  /** How often a run reaches the loop's test. */
  function Tests(s: Loop, steps: seq<Step>): nat
    decreases |steps|
  {
    if steps == [] then 0
    else if !Enabled(s, steps[0]) then Tests(s, steps[1..])
    else (if steps[0].Test? then 1 else 0) + Tests(Next(s, steps[0]), steps[1..])
  }

  lemma {:induction false} StoppedStays(s: Loop, h: History, steps: seq<Step>)
    requires s.phase.Stopped?
    ensures Run(s, h, steps).0.phase.Stopped? && Tests(s, steps) == 0
    decreases |steps|
  {
    if steps != [] {
      if Enabled(s, steps[0]) {
        StoppedStays(Next(s, steps[0]), Noted(s, h, steps[0]), steps[1..]);
      } else {
        StoppedStays(s, h, steps[1..]);
      }
    }
  }

  /** Inside loop() a request to quit ends it at the next test, whatever else happens. */
  lemma {:induction false} QuitEndsAtTest(s: Loop, h: History, steps: seq<Step>)
    requires s.quit && !s.phase.Outside? && !s.phase.Stopped?
    ensures Tests(s, steps) <= 1
    ensures Run(s, h, steps).0.phase.Stopped? <==> Tests(s, steps) == 1
    decreases |steps|
  {
    if steps != [] {
      if !Enabled(s, steps[0]) {
        QuitEndsAtTest(s, h, steps[1..]);
      } else if steps[0].Test? {
        StoppedStays(Next(s, steps[0]), Noted(s, h, steps[0]), steps[1..]);
      } else {
        QuitEndsAtTest(Next(s, steps[0]), Noted(s, h, steps[0]), steps[1..]);
      }
    }
  }

  ghost predicate NoneAsks(steps: seq<Step>) {
    forall i :: 0 <= i < |steps| ==> !AsksToQuit(steps[i])
  }

  /** Without a request since loop() was entered it never stops. */
  lemma {:induction false} UnaskedGoesOn(s: Loop, h: History, steps: seq<Step>)
    requires NoneAsks(steps) && !s.phase.Stopped? && (s.phase.Outside? || !s.quit)
    ensures !Run(s, h, steps).0.phase.Stopped?
    decreases |steps|
  {
    if steps != [] {
      assert !AsksToQuit(steps[0]) && NoneAsks(steps[1..]);
      if Enabled(s, steps[0]) {
        UnaskedGoesOn(Next(s, steps[0]), Noted(s, h, steps[0]), steps[1..]);
      } else {
        UnaskedGoesOn(s, h, steps[1..]);
      }
    }
  }

  /** A request to quit is honoured exactly when it comes after loop() was entered: the last
      request of a run that reaches the loop's test afterwards has stopped the loop if it was
      made inside loop(), and is forgotten if it was made before. */
  lemma QuitHonoured(before: seq<Step>, ask: Step, after: seq<Step>)
    requires AsksToQuit(ask) && NoneAsks(after)
    requires var s := Run(Begin, Blank, before).0;
             Enabled(s, ask) && !s.phase.Stopped? && Tests(Next(s, ask), after) > 0
    ensures Run(Begin, Blank, before + [ask] + after).0.phase.Stopped? <==> !Run(Begin, Blank, before).0.phase.Outside?
  {
    var (s, h) := Run(Begin, Blank, before);
    RunSnoc(Begin, Blank, before, ask);
    RunConcat(Begin, Blank, before + [ask], after);
    if s.phase.Outside? {
      UnaskedGoesOn(Next(s, ask), Noted(s, h, ask), after);
    } else {
      QuitEndsAtTest(Next(s, ask), Noted(s, h, ask), after);
    }
  }
}

/** The EventLoop object: the members the queue uses, updated by its methods. */
module EventLoopObject {
  import opened LoopProtocol

  /** What happens to the queue while the loop is at work: the loop's own thread or another
      one queues a task or asks to quit. */
  datatype Event = Queues(task: Task, own: bool) | Asks(own: bool)

  /** The tasks queued by some events, in order. */
  function Tasks(es: seq<Event>): seq<Task> {
    if es == [] then [] else
    var last := es[|es| - 1];
    Tasks(es[..|es| - 1]) + if last.Queues? then [last.task] else []
  }

  predicate AnyAsks(es: seq<Event>) {
    es != [] && (AnyAsks(es[..|es| - 1]) || es[|es| - 1].Asks?)
  }

  predicate NoneOwn(es: seq<Event>) {
    forall i :: 0 <= i < |es| ==> !es[i].own
  }

  /** The event writes to the eventfd: another thread's always does, the loop thread's own only
      when it queues a task while the functors are run. */
  predicate Wakens(e: Event, calling: bool) {
    !e.own || (e.Queues? && calling)
  }

  function Wakes(es: seq<Event>, calling: bool): nat {
    if es == [] then 0
    else Wakes(es[..|es| - 1], calling) + if Wakens(es[|es| - 1], calling) then 1 else 0
  }

  /** What comes while the given tasks run: the tasks queued, in order, the wakeups, and whether
      quitting is asked for. */
  function Spawned(tasks: seq<Task>, during: Task -> seq<Event>): seq<Task> {
    if tasks == [] then [] else Spawned(tasks[..|tasks| - 1], during) + Tasks(during(tasks[|tasks| - 1]))
  }

  function WakesOf(tasks: seq<Task>, during: Task -> seq<Event>): nat {
    if tasks == [] then 0 else WakesOf(tasks[..|tasks| - 1], during) + Wakes(during(tasks[|tasks| - 1]), true)
  }

  predicate AsksOf(tasks: seq<Task>, during: Task -> seq<Event>) {
    tasks != [] && (AsksOf(tasks[..|tasks| - 1], during) || AnyAsks(during(tasks[|tasks| - 1])))
  }

  /** One turn of loop(): what other threads do while it polls, whether a foreign event ends
      the poll, and what happens while the reported events are handled. */
  datatype Round = Round(arriving: seq<Event>, io: bool, handling: seq<Event>)

  // ---------------------------------------------------------------- what some rounds come to

  /** The tasks one round runs. */
  function Batch(pending: seq<Task>, round: Round): seq<Task> {
    pending + (Tasks(round.arriving) + Tasks(round.handling))
  }

  /** What is left pending: what the functors of the last round queued. */
  function PendingIn(pending: seq<Task>, rounds: seq<Round>, during: Task -> seq<Event>): seq<Task> {
    if rounds == [] then pending else
    Spawned(Batch(PendingIn(pending, rounds[..|rounds| - 1], during), rounds[|rounds| - 1]), during)
  }

  /** What is executed: in each round what was pending, then what arrived and was handled. */
  function ExecutedIn(pending: seq<Task>, rounds: seq<Round>, during: Task -> seq<Event>): seq<Task> {
    if rounds == [] then [] else
    var before := rounds[..|rounds| - 1];
    ExecutedIn(pending, before, during) + Batch(PendingIn(pending, before, during), rounds[|rounds| - 1])
  }

  /** What is queued by anybody. */
  function QueuedIn(pending: seq<Task>, rounds: seq<Round>, during: Task -> seq<Event>): seq<Task> {
    if rounds == [] then [] else
    var before, last := rounds[..|rounds| - 1], rounds[|rounds| - 1];
    QueuedIn(pending, before, during)
    + (Tasks(last.arriving) + Tasks(last.handling) + Spawned(Batch(PendingIn(pending, before, during), last), during))
  }

  /** The eventfd counter afterwards: the wakeups of the last round since its poll. */
  function SignalIn(signal: nat, pending: seq<Task>, rounds: seq<Round>, during: Task -> seq<Event>): nat {
    if rounds == [] then signal else
    var before, last := rounds[..|rounds| - 1], rounds[|rounds| - 1];
    Wakes(last.handling, false) + WakesOf(Batch(PendingIn(pending, before, during), last), during)
  }

  /** Whether quitting was asked for. */
  predicate AskedIn(pending: seq<Task>, rounds: seq<Round>, during: Task -> seq<Event>) {
    rounds != [] &&
    var before, last := rounds[..|rounds| - 1], rounds[|rounds| - 1];
    || AskedIn(pending, before, during) || AnyAsks(last.arriving) || AnyAsks(last.handling)
    || AsksOf(Batch(PendingIn(pending, before, during), last), during)
  }

  /** The poll of a round returns. */
  predicate Returns(signal: nat, round: Round) {
    signal > 0 || round.arriving != [] || round.io
  }

  /** Round i is entered: nothing has asked to quit before, and its poll returns. */
  predicate Takes(signal: nat, pending: seq<Task>, rounds: seq<Round>, during: Task -> seq<Event>, i: nat)
    requires i < |rounds|
  {
    !AskedIn(pending, rounds[..i], during) && Returns(SignalIn(signal, pending, rounds[..i], during), rounds[i])
  }

  /** Everything queued is executed or still pending, in order. */
  lemma {:induction false} RoundsDeliver(pending: seq<Task>, rounds: seq<Round>, during: Task -> seq<Event>)
    ensures ExecutedIn(pending, rounds, during) + PendingIn(pending, rounds, during)
         == pending + QueuedIn(pending, rounds, during)
    decreases |rounds|
  {
    if rounds == [] {
      assert [] + pending == pending + [];
    } else {
      var before, last := rounds[..|rounds| - 1], rounds[|rounds| - 1];
      RoundsDeliver(pending, before, during);
      var p, arrived := PendingIn(pending, before, during), Tasks(last.arriving) + Tasks(last.handling);
      Regroup4(ExecutedIn(pending, before, during), p, pending, QueuedIn(pending, before, during), arrived,
               Spawned(Batch(p, last), during));
    }
  }

  lemma Regroup4(e: seq<Task>, p: seq<Task>, p0: seq<Task>, q: seq<Task>, a: seq<Task>, s: seq<Task>)
    requires e + p == p0 + q
    ensures e + (p + a) + s == p0 + (q + (a + s))
  {
    assert e + (p + a) + s == (e + p) + (a + s);
  }

  lemma {:induction false} TasksWake(es: seq<Event>)
    ensures Tasks(es) != [] ==> Wakes(es, true) > 0
  {
    if es != [] { TasksWake(es[..|es| - 1]); }
  }

  lemma {:induction false} SpawnedWake(tasks: seq<Task>, during: Task -> seq<Event>)
    ensures Spawned(tasks, during) != [] ==> WakesOf(tasks, during) > 0
  {
    if tasks != [] {
      SpawnedWake(tasks[..|tasks| - 1], during);
      TasksWake(during(tasks[|tasks| - 1]));
    }
  }

  // ---------------------------------------------------------------- runs of the protocol

  /** A run from s that tests n times ends in t. */
  ghost predicate Reaches(s: Loop, h: History, n: nat, steps: seq<Step>, t: Loop, k: History) {
    Run(s, h, steps) == (t, k) && Tests(s, steps) == n
  }

  lemma {:induction false} TestsSnoc(s: Loop, h: History, steps: seq<Step>, step: Step)
    requires Enabled(Run(s, h, steps).0, step)
    ensures Tests(s, steps + [step]) == Tests(s, steps) + if step.Test? then 1 else 0
    decreases |steps|
  {
    if steps == [] {
      assert [] + [step] == [step] && [step][1..] == [];
    } else {
      assert (steps + [step])[1..] == steps[1..] + [step];
      if Enabled(s, steps[0]) {
        TestsSnoc(Next(s, steps[0]), Noted(s, h, steps[0]), steps[1..], step);
      } else {
        TestsSnoc(s, h, steps[1..], step);
      }
    }
  }

  lemma ReachesNext(s: Loop, h: History, n: nat, steps: seq<Step>, t: Loop, k: History, step: Step)
    requires Reaches(s, h, n, steps, t, k) && Enabled(t, step)
    ensures Reaches(s, h, if step.Test? then n + 1 else n, steps + [step], Next(t, step), Noted(t, k, step))
  {
    RunSnoc(s, h, steps, step);
    TestsSnoc(s, h, steps, step);
  }

  lemma ReachesSwap(s: Loop, h: History, n: nat, steps: seq<Step>, t: Loop, k: History) returns (more: seq<Step>)
    requires Reaches(s, h, n, steps, t, k) && t.phase.Handling? && !t.reported && t.batch == []
    ensures Reaches(s, h, n, more, t.(pending := [], batch := t.pending, calling := true, phase := Executing), k)
  {
    ReachesNext(s, h, n, steps, t, k, EndHandling);
    ReachesNext(s, h, n, steps + [EndHandling], Next(t, EndHandling), k, Swap);
    more := steps + [EndHandling] + [Swap];
  }

  lemma ReachesPoll(s: Loop, h: History, n: nat, steps: seq<Step>, t: Loop, k: History, io: bool)
    returns (more: seq<Step>)
    requires Reaches(s, h, n, steps, t, k) && t.phase.Polling? && (t.signal > 0 || io) && !t.reported
    ensures Reaches(s, h, n, more, t.(signal := 0, phase := Handling), k)
  {
    ReachesNext(s, h, n, steps, t, k, Poll(io));
    more := steps + [Poll(io)];
    if t.signal > 0 {
      ReachesNext(s, h, n, more, Next(t, Poll(io)), k, Drain);
      more := more + [Drain];
    }
  }

  /** An event with its wakeup: queue_in_loop and quit, each as one stretch of the run. */
  function Happened(t: Loop, e: Event): Loop {
    match e
    case Queues(task, own) =>
      t.(pending := t.pending + [task], signal := if own && !t.calling then t.signal else t.signal + 1)
    case Asks(own) => t.(quit := true, signal := if own then t.signal else t.signal + 1)
  }

  lemma OneEvent(e: Event)
    ensures Tasks([e]) == if e.Queues? then [e.task] else []
  {
    assert [e][..0] == [] && Tasks([e][..0]) == [];
  }

  lemma ReachesEvent(s: Loop, h: History, n: nat, steps: seq<Step>, t: Loop, k: History, e: Event)
    returns (more: seq<Step>)
    requires Reaches(s, h, n, steps, t, k) && (e.own ==> RunsCode(t.phase))
    ensures Reaches(s, h, n, more, Happened(t, e), k.(queued := k.queued + Tasks([e])))
  {
    OneEvent(e);
    assert k.queued + [] == k.queued;
    var step := match e
      case Queues(task, own) => (if own then PushOwn(task) else Push(task))
      case Asks(own) => (if own then QuitOwn else QuitOther);
    ReachesNext(s, h, n, steps, t, k, step);
    more := steps + [step];
    if !e.own || (e.Queues? && t.calling) {
      ReachesNext(s, h, n, more, Next(t, step), Noted(t, k, step), Send);
      more := more + [Send];
    }
  }

  lemma OneMore(es: seq<Event>, i: nat)
    requires i < |es|
    ensures forall calling ::
              Wakes(es[..i + 1], calling) == Wakes(es[..i], calling) + if Wakens(es[i], calling) then 1 else 0
    ensures Tasks(es[..i + 1]) == Tasks(es[..i]) + Tasks([es[i]])
    ensures AnyAsks(es[..i + 1]) <==> AnyAsks(es[..i]) || es[i].Asks?
  {
    assert es[..i + 1][..i] == es[..i];
    OneEvent(es[i]);
  }

  lemma Regroup(a: seq<Task>, b: seq<Task>, c: seq<Task>)
    ensures a + b + c == a + (b + c)
  {
  }

  lemma ReachesExecute(s: Loop, h: History, n: nat, steps: seq<Step>, t: Loop, k: History, list: seq<Task>, i: nat)
    requires i < |list| && Reaches(s, h, n, steps, t, k) && t.phase.Executing? && t.batch == list[i..]
    ensures Reaches(s, h, n, steps + [Execute], t.(batch := list[i + 1..]), k.(executed := k.executed + [list[i]]))
  {
    ReachesNext(s, h, n, steps, t, k, Execute);
    assert list[i..][1..] == list[i + 1..];
  }

  lemma AllAccounted(s: Loop, h: History, n: nat, steps: seq<Step>, t: Loop, k: History)
    requires Reaches(s, h, n, steps, t, k) && Consistent(s) && Accounted(s, h) && t.batch == []
    ensures k.executed + t.pending == k.queued
  {
    RunKeeps(s, h, steps);
    assert k.executed + [] + t.pending == k.executed + t.pending;
  }

  lemma RegroupQueued(a: seq<Task>, b: seq<Task>, c: seq<Task>, d: seq<Task>)
    ensures a + b + c + d == a + (b + c + d)
  {
  }

  lemma OneRoundMore(signal: nat, p: seq<Task>, rounds: seq<Round>, i: nat, during: Task -> seq<Event>, ran: seq<Task>)
    requires i < |rounds| && ran == Batch(PendingIn(p, rounds[..i], during), rounds[i])
    ensures ExecutedIn(p, rounds[..i + 1], during) == ExecutedIn(p, rounds[..i], during) + ran
    ensures PendingIn(p, rounds[..i + 1], during) == Spawned(ran, during)
    ensures QueuedIn(p, rounds[..i + 1], during)
         == QueuedIn(p, rounds[..i], during)
            + (Tasks(rounds[i].arriving) + Tasks(rounds[i].handling) + Spawned(ran, during))
    ensures SignalIn(signal, p, rounds[..i + 1], during) == Wakes(rounds[i].handling, false) + WakesOf(ran, during)
    ensures AskedIn(p, rounds[..i + 1], during)
       <==> AskedIn(p, rounds[..i], during) || AnyAsks(rounds[i].arriving) || AnyAsks(rounds[i].handling)
            || AsksOf(ran, during)
  {
    assert rounds[..i + 1][..i] == rounds[..i];
  }

  /** Whatever other threads do wakes the loop. */
  lemma {:induction false} AllWake(es: seq<Event>)
    requires NoneOwn(es)
    ensures Wakes(es, false) == |es|
  {
    if es != [] { AllWake(es[..|es| - 1]); }
  }

  /** With no signal nothing is pending, but in the first round what was queued before. */
  lemma NothingWaits(signal: nat, pending: seq<Task>, rounds: seq<Round>, during: Task -> seq<Event>)
    ensures SignalIn(signal, pending, rounds, during) == 0 ==>
              PendingIn(pending, rounds, during) == [] || (signal == 0 && rounds == [])
  {
    if rounds != [] {
      SpawnedWake(Batch(PendingIn(pending, rounds[..|rounds| - 1], during), rounds[|rounds| - 1]), during);
    }
  }

  lemma ReachesEnter(s: Loop, h: History)
    requires s.phase.Outside?
    ensures Reaches(s, h, 0, [Enter], s.(phase := AtTest, quit := false), h)
  {
    ReachesNext(s, h, 0, [], s, h, Enter);
    assert [] + [Enter] == [Enter];
  }

  class EventLoop {
    var pendingFunctors: seq<Task>
    var callingPendingFunctors: bool
    var quit: bool
    var signal: nat              // the eventfd counter
    var executed: seq<Task>      // what has been run on the loop thread

    /** The protocol state this object shows while the loop thread is at the given point,
        with the given tasks still to run. */
    ghost function View(phase: Phase, batch: seq<Task> := []): Loop
      reads this
    {
      Loop(pendingFunctors, batch, callingPendingFunctors, signal, 0, false, phase, quit)
    }

    constructor ()
      ensures View(Outside) == Begin && executed == []
      ensures pendingFunctors == [] && !callingPendingFunctors && !quit && signal == 0 && executed == []
    {
      pendingFunctors, callingPendingFunctors, quit, signal, executed := [], false, false, 0, [];
    }

    method Wakeup()
      modifies this`signal
      ensures signal == old(signal) + 1
    {
      signal := signal + 1;
    }

    /** A task queued by another thread, or while the list is being run, comes with a
        wakeup; one queued by the loop thread otherwise does not. */
    method QueueInLoop(task: Task, inLoopThread: bool)
      modifies this`pendingFunctors, this`signal
      ensures pendingFunctors == old(pendingFunctors) + [task]
      ensures signal == if inLoopThread && !callingPendingFunctors then old(signal) else old(signal) + 1
    {
      pendingFunctors := pendingFunctors + [task];
      if !inLoopThread || callingPendingFunctors {
        Wakeup();
      }
    }

    /** On the loop thread the task runs at once, ahead of anything queued. */
    method RunInLoop(task: Task, inLoopThread: bool)
      modifies this`pendingFunctors, this`signal, this`executed
      ensures inLoopThread ==> executed == old(executed) + [task]
                               && pendingFunctors == old(pendingFunctors) && signal == old(signal)
      ensures !inLoopThread ==> executed == old(executed)
                                && pendingFunctors == old(pendingFunctors) + [task] && signal == old(signal) + 1
    {
      if inLoopThread {
        executed := executed + [task];
      } else {
        QueueInLoop(task, false);
      }
    }

    method Quit(inLoopThread: bool)
      modifies this`quit, this`signal
      ensures quit && signal == if inLoopThread then old(signal) else old(signal) + 1
    {
      quit := true;
      if !inLoopThread {
        Wakeup();
      }
    }

    method Take(e: Event, ghost s: Loop, ghost h: History, ghost n: nat, ghost steps: seq<Step>, ghost phase: Phase,
                ghost batch: seq<Task>, ghost k: History) returns (ghost more: seq<Step>)
      requires Reaches(s, h, n, steps, View(phase, batch), k) && (e.own ==> RunsCode(phase))
      modifies this`pendingFunctors, this`signal, this`quit
      ensures pendingFunctors == old(pendingFunctors) + Tasks([e]) && (quit <==> old(quit) || e.Asks?)
      ensures signal == old(signal) + if Wakens(e, callingPendingFunctors) then 1 else 0
      ensures Reaches(s, h, n, more, View(phase, batch), k.(queued := k.queued + Tasks([e])))
    {
      OneEvent(e);
      more := ReachesEvent(s, h, n, steps, View(phase, batch), k, e);
      match e
      case Queues(task, own) => QueueInLoop(task, own);
      case Asks(own) => Quit(own);
    }

    /** What happens at one point of the loop, with its wakeups: a stretch of the run. */
    method TakeAll(es: seq<Event>, ghost s: Loop, ghost h: History, ghost n: nat, ghost steps: seq<Step>,
                   ghost phase: Phase, ghost batch: seq<Task>, ghost k: History) returns (ghost more: seq<Step>)
      requires Reaches(s, h, n, steps, View(phase, batch), k) && (RunsCode(phase) || NoneOwn(es))
      modifies this`pendingFunctors, this`signal, this`quit
      ensures pendingFunctors == old(pendingFunctors) + Tasks(es) && (quit <==> old(quit) || AnyAsks(es))
      ensures signal == old(signal) + Wakes(es, callingPendingFunctors)
      ensures Reaches(s, h, n, more, View(phase, batch), k.(queued := k.queued + Tasks(es)))
    {
      more := steps;
      ghost var now := k;
      for i := 0 to |es|
        invariant pendingFunctors == old(pendingFunctors) + Tasks(es[..i]) && (quit <==> old(quit) || AnyAsks(es[..i]))
        invariant signal == old(signal) + Wakes(es[..i], callingPendingFunctors)
        invariant now == k.(queued := now.queued) && now.queued == k.queued + Tasks(es[..i])
        invariant Reaches(s, h, n, more, View(phase, batch), now)
      {
        OneMore(es, i);
        more := Take(es[i], s, h, n, more, phase, batch, now);
        Regroup(k.queued, Tasks(es[..i]), Tasks([es[i]]));
        Regroup(old(pendingFunctors), Tasks(es[..i]), Tasks([es[i]]));
        now := now.(queued := now.queued + Tasks([es[i]]));
      }
      assert es[..|es|] == es;
    }

    /** Runs exactly what was pending, in order, each task once; whatever is queued meanwhile,
        by those tasks or by other threads, stays for the next iteration, with the eventfd
        signalled for it. */
    method DoPendingFunctors(during: Task -> seq<Event>, ghost s: Loop, ghost h: History, ghost n: nat,
                             ghost steps: seq<Step>, ghost k: History) returns (ghost more: seq<Step>)
      requires Reaches(s, h, n, steps, View(Handling), k)
      modifies this`pendingFunctors, this`callingPendingFunctors, this`signal, this`quit, this`executed
      ensures executed == old(executed) + old(pendingFunctors) && !callingPendingFunctors
      ensures pendingFunctors == Spawned(old(pendingFunctors), during)
      ensures signal == old(signal) + WakesOf(old(pendingFunctors), during)
      ensures quit <==> old(quit) || AsksOf(old(pendingFunctors), during)
      ensures Reaches(s, h, n, more, View(Expiring),
                      History(k.queued + pendingFunctors, k.executed + old(pendingFunctors)))
    {
      more := ReachesSwap(s, h, n, steps, View(Handling), k);
      callingPendingFunctors := true;
      var functorList := pendingFunctors;
      pendingFunctors := [];
      more := RunAll(functorList, during, s, h, n, more, k);
      ghost var now := History(k.queued + pendingFunctors, k.executed + functorList);
      ReachesNext(s, h, n, more, View(Executing), now, EndExecuting);
      more := more + [EndExecuting];
      callingPendingFunctors := false;
    }

    /** The loop over the list that was swapped out. */
    method RunAll(list: seq<Task>, during: Task -> seq<Event>, ghost s: Loop, ghost h: History, ghost n: nat,
                  ghost steps: seq<Step>, ghost k: History) returns (ghost more: seq<Step>)
      requires callingPendingFunctors && pendingFunctors == []
      requires Reaches(s, h, n, steps, View(Executing, list), k)
      modifies this`pendingFunctors, this`signal, this`quit, this`executed
      ensures executed == old(executed) + list && pendingFunctors == Spawned(list, during)
      ensures signal == old(signal) + WakesOf(list, during) && (quit <==> old(quit) || AsksOf(list, during))
      ensures Reaches(s, h, n, more, View(Executing), History(k.queued + pendingFunctors, k.executed + list))
    {
      more := steps;
      assert list[0..] == list && k.executed + list[..0] == k.executed && k.queued + pendingFunctors == k.queued;
      for i := 0 to |list|
        invariant callingPendingFunctors && executed == old(executed) + list[..i]
        invariant pendingFunctors == Spawned(list[..i], during)
        invariant signal == old(signal) + WakesOf(list[..i], during)
        invariant quit <==> old(quit) || AsksOf(list[..i], during)
        invariant Reaches(s, h, n, more, View(Executing, list[i..]),
                          History(k.queued + pendingFunctors, k.executed + list[..i]))
      {
        assert list[..i + 1][..i] == list[..i];
        more := RunFunctor(list, i, during, s, h, n, more, k);
      }
      assert list[..|list|] == list && list[|list|..] == [];
    }

    /** One task of the list, and what is queued while it runs. */
    method RunFunctor(list: seq<Task>, i: nat, during: Task -> seq<Event>, ghost s: Loop, ghost h: History,
                      ghost n: nat, ghost steps: seq<Step>, ghost k: History) returns (ghost more: seq<Step>)
      requires i < |list| && callingPendingFunctors && pendingFunctors == Spawned(list[..i], during)
      requires Reaches(s, h, n, steps, View(Executing, list[i..]),
                       History(k.queued + pendingFunctors, k.executed + list[..i]))
      modifies this`pendingFunctors, this`signal, this`quit, this`executed
      ensures executed == old(executed) + [list[i]] && pendingFunctors == Spawned(list[..i + 1], during)
      ensures signal == old(signal) + Wakes(during(list[i]), true)
      ensures quit <==> old(quit) || AnyAsks(during(list[i]))
      ensures Reaches(s, h, n, more, View(Executing, list[i + 1..]),
                      History(k.queued + pendingFunctors, k.executed + list[..i + 1]))
    {
      ghost var before := pendingFunctors;
      ghost var k0 := History(k.queued + before, k.executed + list[..i]);
      ReachesExecute(s, h, n, steps, View(Executing, list[i..]), k0, list, i);
      assert list[..i + 1][..i] == list[..i] && list[..i] + [list[i]] == list[..i + 1];
      Regroup(k.executed, list[..i], [list[i]]);
      executed := executed + [list[i]];
      more := TakeAll(during(list[i]), s, h, n, steps + [Execute], Executing, list[i + 1..],
                      History(k.queued + before, k.executed + list[..i + 1]));
      Regroup(k.queued, before, Tasks(during(list[i])));
    }

    /** One turn of the loop from an epoll_wait that returns: the handlers of the reported
        events, then the functors, then handle_expired. */
    method Turn(round: Round, during: Task -> seq<Event>, ghost s: Loop, ghost h: History, ghost n: nat,
                ghost steps: seq<Step>, ghost k: History) returns (ghost more: seq<Step>, ghost k': History)
      requires Reaches(s, h, n, steps, View(Polling), k) && (signal > 0 || round.io) && !callingPendingFunctors
      modifies this
      ensures var ran := old(pendingFunctors) + Tasks(round.handling);
              && !callingPendingFunctors && executed == old(executed) + ran
              && pendingFunctors == Spawned(ran, during)
              && signal == Wakes(round.handling, false) + WakesOf(ran, during)
              && (quit <==> old(quit) || AnyAsks(round.handling) || AsksOf(ran, during))
              && k' == History(k.queued + Tasks(round.handling) + Spawned(ran, during), k.executed + ran)
      ensures Reaches(s, h, n, more, View(AtTest), k')
    {
      more := ReachesPoll(s, h, n, steps, View(Polling), k, round.io);
      signal := 0;
      more := TakeAll(round.handling, s, h, n, more, Handling, [], k);
      ghost var k1 := k.(queued := k.queued + Tasks(round.handling));
      ghost var list := pendingFunctors;
      more := DoPendingFunctors(during, s, h, n, more, k1);
      k' := History(k1.queued + pendingFunctors, k1.executed + list);
      ReachesNext(s, h, n, more, View(Expiring), k', EndExpiring);
      more := more + [EndExpiring];
    }

    /** A turn of the while loop that passes its test; with nothing to report the poll does
        not return. */
    method PollAndTurn(round: Round, during: Task -> seq<Event>, ghost s: Loop, ghost h: History, ghost n: nat,
                       ghost steps: seq<Step>, ghost k: History)
      returns (phase: Phase, ghost more: seq<Step>, ghost k': History)
      requires Reaches(s, h, n, steps, View(AtTest), k) && !quit && !callingPendingFunctors && NoneOwn(round.arriving)
      modifies this
      ensures phase == if Returns(old(signal), round) then AtTest else Polling
      ensures !callingPendingFunctors && Reaches(s, h, n + 1, more, View(phase), k')
      ensures phase.Polling? ==>
        && pendingFunctors == old(pendingFunctors) && !quit && signal == 0 && executed == old(executed) && k' == k
      ensures phase.AtTest? ==>
        var ran := Batch(old(pendingFunctors), round);
        && executed == old(executed) + ran && pendingFunctors == Spawned(ran, during)
        && signal == Wakes(round.handling, false) + WakesOf(ran, during)
        && (quit <==> AnyAsks(round.arriving) || AnyAsks(round.handling) || AsksOf(ran, during))
        && k'.executed == k.executed + ran
        && k'.queued == k.queued + (Tasks(round.arriving) + Tasks(round.handling) + Spawned(ran, during))
    {
      ReachesNext(s, h, n, steps, View(AtTest), k, Test);
      more := TakeAll(round.arriving, s, h, n + 1, steps + [Test], Polling, [], k);
      k' := k.(queued := k.queued + Tasks(round.arriving));
      AllWake(round.arriving);
      if signal == 0 && !round.io {
        phase := Polling;
        assert k.queued + [] == k.queued && old(pendingFunctors) + [] == old(pendingFunctors);
        return;
      }
      Regroup(old(pendingFunctors), Tasks(round.arriving), Tasks(round.handling));
      ghost var ran := Batch(old(pendingFunctors), round);
      RegroupQueued(k.queued, Tasks(round.arriving), Tasks(round.handling), Spawned(ran, during));
      more, k' := Turn(round, during, s, h, n + 1, more, k');
      phase := AtTest;
    }

    /** loop(): rounds are taken one after another until quitting was asked for, a poll does not
        return, or there are no more. In each the loop executes what was pending, then what
        arrived and was handled, in this order, and what its functors queue is left for the
        next; it ends waiting in epoll_wait only at a round with no signal, nothing arriving
        and no other event. All this is a run of the protocol that tests once more than rounds
        are taken, or as often when they run out, and it stops exactly when asked to since it
        was entered. */
    method RunLoop(rounds: seq<Round>, during: Task -> seq<Event>)
      returns (phase: Phase, taken: nat, ghost steps: seq<Step>, ghost k: History)
      requires !callingPendingFunctors && forall i :: 0 <= i < |rounds| ==> NoneOwn(rounds[i].arriving)
      modifies this
      ensures taken <= |rounds| && (phase.Stopped? || phase.Polling? || phase.AtTest?)
      ensures executed == old(executed) + ExecutedIn(old(pendingFunctors), rounds[..taken], during)
      ensures pendingFunctors == PendingIn(old(pendingFunctors), rounds[..taken], during)
      ensures signal == SignalIn(old(signal), old(pendingFunctors), rounds[..taken], during)
      ensures quit <==> AskedIn(old(pendingFunctors), rounds[..taken], during)
      ensures forall i :: 0 <= i < taken ==> Takes(old(signal), old(pendingFunctors), rounds, during, i)
      ensures phase.Stopped? <==> quit
      ensures phase.AtTest? ==> taken == |rounds|
      ensures phase.Polling? ==> taken < |rounds| && !Returns(signal, rounds[taken])
      ensures Reaches(old(View(Outside)), History(old(pendingFunctors), []),
                      if phase.AtTest? then taken else taken + 1, steps, View(phase), k)
      ensures quit <==> AskedSince(old(View(Outside)), old(quit), steps)
      ensures executed == old(executed) + k.executed && k.executed + pendingFunctors == k.queued
      ensures k.queued == old(pendingFunctors) + QueuedIn(old(pendingFunctors), rounds[..taken], during)
      ensures phase.Polling? ==> pendingFunctors == [] || (old(signal) == 0 && pendingFunctors == old(pendingFunctors))
    {
      ghost var s, h, p := View(Outside), History(pendingFunctors, []), pendingFunctors;
      ReachesEnter(s, h);
      quit := false;
      assert p + [] == p && executed + [] == executed && rounds[..0] == [];
      phase, taken, steps, k := TakeRounds(rounds, during, s, h, [Enter], signal, p, executed);
      if quit {
        ReachesNext(s, h, taken, steps, View(AtTest), k, Test);
        steps, phase := steps + [Test], Stopped;
      }
      AllAccounted(s, h, if phase.AtTest? then taken else taken + 1, steps, View(phase), k);
      QuitIsAsked(s, h, steps);
      NothingWaits(old(signal), p, rounds[..taken], during);
    }

    /** The while loop of loop(). */
    method TakeRounds(rounds: seq<Round>, during: Task -> seq<Event>, ghost s: Loop, ghost h: History,
                      ghost start: seq<Step>, ghost signal0: nat, ghost p: seq<Task>, ghost executed0: seq<Task>)
      returns (phase: Phase, taken: nat, ghost steps: seq<Step>, ghost k: History)
      requires !quit && !callingPendingFunctors && forall i :: 0 <= i < |rounds| ==> NoneOwn(rounds[i].arriving)
      requires Reaches(s, h, 0, start, View(AtTest), h) && Took(signal0, p, [], during, executed0, h)
      modifies this
      ensures taken <= |rounds| && (phase.AtTest? || phase.Polling?)
      ensures Took(signal0, p, rounds[..taken], during, executed0, k)
      ensures forall i :: 0 <= i < taken ==> Takes(signal0, p, rounds, during, i)
      ensures phase.AtTest? ==> (quit || taken == |rounds|) && Reaches(s, h, taken, steps, View(phase), k)
      ensures phase.Polling? ==> !quit && taken < |rounds| && !Returns(signal, rounds[taken])
                                 && Reaches(s, h, taken + 1, steps, View(phase), k)
    {
      steps, k, taken, phase := start, h, 0, AtTest;
      assert rounds[..0] == [];
      while !quit && taken < |rounds|
        invariant !callingPendingFunctors && phase.AtTest? && taken <= |rounds|
        invariant Took(signal0, p, rounds[..taken], during, executed0, k)
        invariant forall i :: 0 <= i < taken ==> Takes(signal0, p, rounds, during, i)
        invariant Reaches(s, h, taken, steps, View(phase), k)
        decreases |rounds| - taken
      {
        phase, steps, k := TakeRound(rounds, taken, during, s, h, steps, k, signal0, p, executed0);
        if phase.Polling? { return; }
        taken := taken + 1;
      }
    }

    /** What the given rounds have come to. */
    ghost predicate Took(signal0: nat, p: seq<Task>, rounds: seq<Round>, during: Task -> seq<Event>,
                         executed0: seq<Task>, k: History)
      reads this
    {
      && k.executed == ExecutedIn(p, rounds, during) && executed == executed0 + k.executed
      && pendingFunctors == PendingIn(p, rounds, during)
      && k.queued == p + QueuedIn(p, rounds, during)
      && signal == SignalIn(signal0, p, rounds, during)
      && (quit <==> AskedIn(p, rounds, during))
    }

    /** One round of loop(). */
    method TakeRound(rounds: seq<Round>, i: nat, during: Task -> seq<Event>, ghost s: Loop, ghost h: History,
                     ghost steps: seq<Step>, ghost k: History, ghost signal0: nat, ghost p: seq<Task>,
                     ghost executed0: seq<Task>)
      returns (phase: Phase, ghost more: seq<Step>, ghost k': History)
      requires i < |rounds| && !quit && !callingPendingFunctors && NoneOwn(rounds[i].arriving)
      requires Reaches(s, h, i, steps, View(AtTest), k) && Took(signal0, p, rounds[..i], during, executed0, k)
      modifies this
      ensures !callingPendingFunctors && Reaches(s, h, i + 1, more, View(phase), k')
      ensures phase.AtTest? || phase.Polling?
      ensures phase.AtTest? ==> Takes(signal0, p, rounds, during, i)
                                && Took(signal0, p, rounds[..i + 1], during, executed0, k')
      ensures phase.Polling? ==> !Returns(signal, rounds[i]) && !quit
                                 && Took(signal0, p, rounds[..i], during, executed0, k')
    {
      ghost var ran := Batch(pendingFunctors, rounds[i]);
      phase, more, k' := PollAndTurn(rounds[i], during, s, h, i, steps, k);
      if phase.AtTest? {
        OneRoundMore(signal0, p, rounds, i, during, ran);
        Regroup(executed0, k.executed, ran);
        Regroup(p, QueuedIn(p, rounds[..i], during),
                Tasks(rounds[i].arriving) + Tasks(rounds[i].handling) + Spawned(ran, during));
      }
    }
  }
}
