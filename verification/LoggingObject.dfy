/** The Logging object: its members and the locals of thread_func, updated in place by one
    method per protocol step. Buffers are named by their identity in AsyncLog. */
module LoggingObject {
  import opened Prelude
  import opened LogText
  import opened AsyncLog
  import LogSink

  /** Who moves next: a thread calling append or stop, or the log thread. */
  datatype Turn = Caller(line: string) | Stopper | LogThread

  /** The text of all calls in a schedule. */
  function Called(turns: seq<Turn>): string {
    if turns == [] then ""
    else Called(turns[..|turns| - 1]) + (if turns[|turns| - 1].Caller? then Kept(turns[|turns| - 1].line) else "")
  }

  ghost predicate Took(s: Log, step: Step, t: Log) {
    if Enabled(s, step) then Safe(s, step) && t == Next(s, step, ResetBuffer) else t == s
  }

  /** A step that answers a turn: a call is its append, stop() its stop, and the log thread
      does what it stands at until it has left thread_func. */
  ghost predicate Answers(before: seq<Step>, step: Step, turn: Turn) {
    match turn
    case Caller(line) => step == Append(line)
    case Stopper => step == Stop
    case LogThread =>
      && !step.Append? && !step.Stop?
      && (Run(before, ResetBuffer).Some? ==>
            var s := Run(before, ResetBuffer).value.0; Enabled(s, step) || s.phase.Exited?)
  }

  ghost predicate Follows(steps: seq<Step>, turns: seq<Turn>) {
    |steps| == |turns| && forall i :: 0 <= i < |turns| ==> Answers(steps[..i], steps[i], turns[i])
  }

  lemma FollowsOneMore(steps: seq<Step>, step: Step, turns: seq<Turn>)
    requires |steps| < |turns| && Follows(steps, turns[..|steps|]) && Answers(steps, step, turns[|steps|])
    ensures Follows(steps + [step], turns[..|steps| + 1])
  {
    var more := steps + [step];
    forall i | 0 <= i < |more| ensures Answers(more[..i], more[i], turns[i]) {
      assert more[..i] == steps[..i];
      if i < |steps| { assert turns[..|steps|][i] == turns[i]; }
    }
  }

  lemma RunExtends(steps: seq<Step>, step: Step, t: Log)
    requires Run(steps, ResetBuffer).Some? && Took(Run(steps, ResetBuffer).value.0, step, t)
    ensures Run(steps + [step], ResetBuffer).Some? && Run(steps + [step], ResetBuffer).value.0 == t
    ensures Logged(steps + [step]) == Logged(steps) + (if step.Append? then Kept(step.line) else "")
  {
    assert (steps + [step])[..|steps|] == steps;
  }

  // ---------------------------------------------------------------- nothing lost

  /** The sink took every buffer it was handed whole. */
  predicate WrittenWhole(fates: seq<Fate>) {
    forall i :: 0 <= i < |fates| ==> fates[i].Written? ==> fates[i].taken == |fates[i].text|
  }

  /** No round found more buffers than MAX_BACKLOG. */
  predicate NoneOverfull(s: Log, j: Journal) {
    (forall i :: 0 <= i < |j.fates| ==> j.fates[i].backlog <= MAX_BACKLOG)
    && (s.phase.Writing? ==> j.backlog <= MAX_BACKLOG)
  }

  lemma StaysWhole(s: Log, j: Journal, step: Step)
    requires Enabled(s, step) && WrittenWhole(j.fates)
    requires step.Write? ==> step.taken == |s.output[s.phase.done].text|
    ensures WrittenWhole(Noted(s, j, step).fates)
  {
  }

  /** Taken whole and never dropped: nothing that was logged is missing. */
  lemma NothingLost(steps: seq<Step>)
    requires Run(steps, ResetBuffer).Some?
    requires var (s, j) := Run(steps, ResetBuffer).value; WrittenWhole(j.fates) && NoneOverfull(s, j)
    ensures var s := Run(steps, ResetBuffer).value.0;
            s.file + TextIn(Unwritten(s)) + TextIn(s.queue) + CurrentText(s) == Logged(steps)
  {
    EveryRunIsSound(steps);
    FileIsPrefix(steps);
  }

  lemma RunExtendsWhole(steps: seq<Step>, step: Step)
    requires Run(steps, ResetBuffer).Some? && Run(steps + [step], ResetBuffer).Some?
    requires WrittenWhole(Run(steps, ResetBuffer).value.1.fates)
    requires var s := Run(steps, ResetBuffer).value.0;
             Enabled(s, step) && step.Write? ==> step.taken == |s.output[s.phase.done].text|
    ensures WrittenWhole(Run(steps + [step], ResetBuffer).value.1.fates)
  {
    assert (steps + [step])[..|steps|] == steps;
    var (s, j) := Run(steps, ResetBuffer).value;
    if Enabled(s, step) { StaysWhole(s, j, step); }
  }

  class Logging {
    var curBuffer: Option<Buffer>
    var nextBuffer: Option<Buffer>
    var bufferList: seq<Buffer>
    var isRunning: bool
    var made: nat
    const sink: LogSink.AppendLog
    // the locals of thread_func
    var logBuffer1: Option<Buffer>
    var logBuffer2: Option<Buffer>
    var output: seq<Buffer>
    var phase: Phase

    ghost function State(): Log
      reads this, sink.file
    {
      Log(curBuffer, nextBuffer, bufferList, logBuffer1, logBuffer2, output, phase, isRunning, sink.file.taken, made)
    }

    /** Outside the writing of a round all that the file has taken is flushed. */
    ghost predicate Flushed()
      reads this, sink.file
    {
      !phase.Writing? ==> sink.file.flushed == |sink.file.taken|
    }

    constructor (script: seq<nat>, numAppend: nat)
      ensures sink.Valid() && fresh(sink) && fresh(sink.file) && State() == Initial && Flushed()
      ensures sink.file.script == script && sink.numAppend == numAppend
    {
      sink := new LogSink.AppendLog(script, numAppend);
      curBuffer, nextBuffer, bufferList := Some(Buffer(0, "")), Some(Buffer(1, "")), [];
      logBuffer1, logBuffer2, output := Some(Buffer(2, "")), Some(Buffer(3, "")), [];
      isRunning, phase, made := true, AtHead, 4;
    }

    method Append(line: string)
      requires curBuffer.Some?
      modifies this
      ensures State() == Appended(old(State()), line)
    {
      var b := curBuffer.value;
      if SMALL_BUFFER - |b.text| > |line| {
        curBuffer := Some(b.(text := Put(SMALL_BUFFER, b.text, line)));
      } else {
        bufferList := bufferList + [b];
        if nextBuffer.Some? {
          curBuffer := nextBuffer;
          nextBuffer := None;
        } else {
          curBuffer := Some(Buffer(made, ""));
          made := made + 1;
        }
        b := curBuffer.value;
        curBuffer := Some(b.(text := Put(SMALL_BUFFER, b.text, line)));
      }
    }

    method SwapBuffers()
      requires curBuffer.Some?
      modifies this
      ensures State() == SwappedOut(old(State()))
      ensures output == old(bufferList) + [old(curBuffer).value] && bufferList == old(output)
      ensures curBuffer == old(logBuffer1) && logBuffer1 == None
      ensures if old(nextBuffer).None? then nextBuffer == old(logBuffer2) && logBuffer2 == None
              else nextBuffer == old(nextBuffer) && logBuffer2 == old(logBuffer2)
    {
      bufferList := bufferList + [curBuffer.value];
      curBuffer := logBuffer1;
      logBuffer1 := None;
      output, bufferList := bufferList, output;
      if nextBuffer.None? {
        nextBuffer := logBuffer2;
        logBuffer2 := None;
      }
      phase := Swapped;
    }

    method TrimBacklog()
      modifies this
      ensures State() == Trimmed(old(State()))
      ensures output == if |old(output)| > 25 then old(output)[..2] else old(output)
    {
      if |output| > MAX_BACKLOG {
        output := output[..KEPT];
      }
      phase := Writing(0);
    }

    /** One buffer is handed to the sink, which takes the part its script determines: all of
        it unless a retry takes nothing. */
    method WriteNext() returns (taken: nat)
      requires sink.Valid() && phase.Writing? && phase.done < |output|
      modifies this, sink, sink.file
      ensures sink.Valid() && taken <= |old(output)[old(phase).done].text|
      ensures State() == HandedOver(old(State()), taken)
      ensures taken == LogSink.Finished(old(sink.file.script), |old(output)[old(phase).done].text|)
      ensures sink.file.taken == old(sink.file.taken) + old(output)[old(phase).done].text[..taken]
      ensures LogSink.NoZero(old(sink.file.script)) ==>
                sink.file.taken == old(sink.file.taken) + old(output)[old(phase).done].text
      ensures LogSink.NoZero(old(sink.file.script)) ==> LogSink.NoZero(sink.file.script)
    {
      var line := output[phase.done].text;
      if LogSink.NoZero(sink.file.script) { LogSink.WholeWithoutZero(sink.file.script, |line|); }
      taken := LogSink.Finished(sink.file.script, |line|);
      sink.Append(line);
      phase := Writing(phase.done + 1);
    }

    method EndRound()
      requires sink.Valid() && CanRecycle(State())
      modifies this, sink.file`flushed
      ensures sink.Valid() && State() == RoundEnded(old(State()), ResetBuffer) && Flushed()
      ensures output == [] && sink.file.taken == old(sink.file.taken)
      ensures if old(logBuffer1).Some? then logBuffer1 == old(logBuffer1)
              else logBuffer1 == Some(Buffer(old(output)[if |old(output)| > 1 then 1 else 0].id, ""))
      ensures if old(logBuffer2).Some? then logBuffer2 == old(logBuffer2)
              else var last := if old(logBuffer1).None? || |old(output)| == 1 then 0 else 1;
                   logBuffer2 == Some(Buffer(old(output)[last].id, ""))
    {
      if |output| > KEPT {
        output := output[..KEPT];
      }
      if logBuffer1.None? {
        logBuffer1 := Some(output[|output| - 1].(text := ""));
        output := output[..|output| - 1];
      }
      if logBuffer2.None? {
        logBuffer2 := Some(output[|output| - 1].(text := ""));
        output := output[..|output| - 1];
      }
      output := [];
      sink.Flush();
      phase := AtHead;
    }

    /** Whatever the log thread does next; the step taken is reported, and there is one until
        it has left thread_func. */
    method Proceed() returns (ghost step: Step)
      requires sink.Valid() && Supplied(State()) && Flushed()
      modifies this, sink, sink.file
      ensures sink.Valid() && Took(old(State()), step, State()) && Flushed()
      ensures !step.Append? && !step.Stop? && (Enabled(old(State()), step) <==> !old(phase).Exited?)
      ensures HandsOver(step, old(State()), old(sink.file.script))
      ensures LogSink.NoZero(old(sink.file.script)) ==> LogSink.NoZero(sink.file.script)
    {
      step := Loop;
      match phase {
        case AtHead =>
          if isRunning {
            phase := AtLock;
          } else {
            sink.Flush();
            phase := Exited;
          }
        case AtLock =>
          step := Lock;
          if bufferList == [] { phase := Waiting; } else { SwapBuffers(); }
        case Waiting =>
          step := Wake;
          SwapBuffers();
        case Swapped =>
          step := Trim;
          TrimBacklog();
        case Writing(done) =>
          if done < |output| {
            var taken := WriteNext();
            step := Write(taken);
          } else {
            step := Recycle;
            EndRound();
          }
        case Exited =>
      }
    }

    /** A step that writes hands over what the sink takes of the buffer, and a sink whose calls
        all take something takes it whole. */
    static ghost predicate HandsOver(step: Step, s: Log, script: seq<nat>) {
      step.Write? && Enabled(s, step) ==>
        var size := |s.output[s.phase.done].text|;
        step.taken == LogSink.Finished(script, size) && (LogSink.NoZero(script) ==> step.taken == size)
    }

    method Take(turn: Turn, ghost before: seq<Step>) returns (ghost step: Step)
      requires sink.Valid() && Supplied(State()) && Flushed()
      requires Run(before, ResetBuffer).Some? && State() == Run(before, ResetBuffer).value.0
      modifies this, sink, sink.file
      ensures sink.Valid() && Took(old(State()), step, State()) && Flushed()
      ensures Answers(before, step, turn) && HandsOver(step, old(State()), old(sink.file.script))
      ensures LogSink.NoZero(old(sink.file.script)) ==> LogSink.NoZero(sink.file.script)
    {
      match turn
      case Caller(line) =>
        step := Step.Append(line);
        Append(line);
      case Stopper =>
        step := Stop;
        isRunning := false;
      case LogThread =>
        step := Proceed();
    }

    /** Any schedule of calls and log thread steps is a run of the protocol, step for turn, so
        all that is proved of runs holds of this object; outside the writing of a round, after
        the exit in particular, the file is flushed up to its last byte. With a sink that takes
        something at every call and no round that finds more than 25 buffers, the file and
        the buffers in flight hold exactly what was logged. */
    method Drive(turns: seq<Turn>) returns (ghost steps: seq<Step>)
      requires sink.Valid() && State() == Initial && Flushed()
      modifies this, sink, sink.file
      ensures Flushed()
      ensures sink.Valid() && Run(steps, ResetBuffer).Some? && State() == Run(steps, ResetBuffer).value.0
      ensures Logged(steps) == Called(turns) && Follows(steps, turns)
      ensures LogSink.NoZero(old(sink.file.script)) && NoneOverfull(State(), Run(steps, ResetBuffer).value.1) ==>
                sink.file.taken + TextIn(Unwritten(State())) + TextIn(bufferList) + CurrentText(State())
                == Called(turns)
    {
      steps := [];
      var i := 0;
      ghost var script := sink.file.script;
      while i < |turns|
        invariant 0 <= i <= |turns| && Stands(steps, script) && |steps| == i
        invariant Logged(steps) == Called(turns[..i]) && Follows(steps, turns[..i])
      {
        ghost var step := DriveOne(turns[i], steps, script);
        FollowsOneMore(steps, step, turns);
        assert turns[..i + 1][..i] == turns[..i];
        steps := steps + [step];
        i := i + 1;
      }
      assert turns[..i] == turns;
      if LogSink.NoZero(script) && NoneOverfull(State(), Run(steps, ResetBuffer).value.1) {
        NothingLost(steps);
      }
    }

    /** The object stands at the end of a run; with a sink that started without a 0 in its
        script, whatever was written was written whole. */
    ghost predicate Stands(steps: seq<Step>, script: seq<nat>)
      reads this, sink, sink.file
    {
      && sink.Valid() && Flushed()
      && Run(steps, ResetBuffer).Some? && State() == Run(steps, ResetBuffer).value.0
      && (LogSink.NoZero(script) ==>
            LogSink.NoZero(sink.file.script) && WrittenWhole(Run(steps, ResetBuffer).value.1.fates))
    }

    method DriveOne(turn: Turn, ghost steps: seq<Step>, ghost script: seq<nat>) returns (ghost step: Step)
      requires Stands(steps, script)
      modifies this, sink, sink.file
      ensures Stands(steps + [step], script) && Answers(steps, step, turn)
      ensures Logged(steps + [step]) == Logged(steps) + if turn.Caller? then Kept(turn.line) else ""
    {
      EveryRunIsSound(steps);
      step := Take(turn, steps);
      RunExtends(steps, step, State());
      if LogSink.NoZero(script) { RunExtendsWhole(steps, step); }
    }
  }
}
