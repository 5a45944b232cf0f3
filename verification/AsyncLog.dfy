/** The double-buffered logger as a step protocol between any number of appending
    threads and one log thread (Logging.cpp). A step is one critical section or one
    piece of thread-local work; a run is any sequence of steps. */
module AsyncLog {
  import opened Prelude
  import opened LogText

  const MAX_BACKLOG: nat := 25
  const KEPT: nat := 2

  /** Where the log thread stands in thread_func. */
  datatype Phase = AtHead | AtLock | Waiting | Swapped | Writing(done: nat) | Exited

  /** A LogBuffer: which one it is, and the text before its cursor. */
  datatype Buffer = Buffer(id: nat, text: string)

  /** The program state: the members of Logging (cur_buffer_, next_buffer_, buffer_list_,
      is_running_), the locals of thread_func (log_buffer1, log_buffer2,
      buffer_list_output), the log file, and how many buffers were ever made. */
  datatype Log = Log(
    cur: Option<Buffer>, next: Option<Buffer>, queue: seq<Buffer>,
    spare1: Option<Buffer>, spare2: Option<Buffer>, output: seq<Buffer>,
    phase: Phase, running: bool, file: string, made: nat)

  const Initial := Log(Some(Buffer(0, "")), Some(Buffer(1, "")), [], Some(Buffer(2, "")), Some(Buffer(3, "")), [],
                       AtHead, true, "", 4)

  /** What happened to a buffer the log thread swapped out: its place in its round, and
      the number of buffers that round found. */
  datatype Fate =
    | Written(text: string, taken: nat, index: nat, backlog: nat)
    | Dropped(text: string, index: nat, backlog: nat)

  /** The record a run leaves behind. */
  datatype Journal = Journal(logged: string, fates: seq<Fate>, doomed: seq<Buffer>, backlog: nat, rounds: nat)

  const Blank := Journal("", [], [], 0, 0)

  /** Lines 210 and 217 reset the pointer; the assertions at the loop head ask for the
      buffer to be reset. */
  datatype Recycling = ResetPointer | ResetBuffer

  datatype Step =
    | Append(line: string)   // Logging::append by any thread
    | Stop                   // is_running_ = false
    | Loop                   // the loop test, and the assertions behind it
    | Lock                   // the critical section up to the wait, or through the swap
    | Wake                   // timeout, signal or spurious wakeup: the rest of the section
    | Trim                   // dropping an oversized backlog
    | Write(taken: nat)      // one buffer handed to the sink, which takes some of it
    | Recycle                // the end of the round

  // ---------------------------------------------------------------- the steps

  /** Logging::append, with the lock held. */
  function Appended(s: Log, line: string): Log
    requires s.cur.Some?
  {
    var b := s.cur.value;
    if SMALL_BUFFER - |b.text| > |line| then
      s.(cur := Some(b.(text := Put(SMALL_BUFFER, b.text, line))))
    else
      var spare := if s.next.Some? then s.next.value else Buffer(s.made, "");
      s.(queue := s.queue + [b], cur := Some(spare.(text := Put(SMALL_BUFFER, spare.text, line))), next := None,
         made := if s.next.Some? then s.made else s.made + 1)
  }

  /** The swap at the end of the log thread's critical section. */
  function SwappedOut(s: Log): Log
    requires s.cur.Some?
  {
    s.(output := s.queue + [s.cur.value], queue := s.output,
       cur := s.spare1, spare1 := None,
       next := if s.next.None? then s.spare2 else s.next,
       spare2 := if s.next.None? then None else s.spare2,
       phase := Swapped)
  }

  function Trimmed(s: Log): Log {
    s.(output := if |s.output| > MAX_BACKLOG then s.output[..KEPT] else s.output, phase := Writing(0))
  }

  function HandedOver(s: Log, taken: nat): Log
    requires s.phase.Writing? && s.phase.done < |s.output| && taken <= |s.output[s.phase.done].text|
  {
    s.(file := s.file + s.output[s.phase.done].text[..taken], phase := Writing(s.phase.done + 1))
  }

  function Recycled(b: Buffer, how: Recycling): Option<Buffer> {
    if how.ResetBuffer? then Some(b.(text := "")) else None
  }

  /** The buffers left for recycling: the first two. */
  function Leftover(s: Log): seq<Buffer> {
    if |s.output| > KEPT then s.output[..KEPT] else s.output
  }

  /** Both recycling blocks find a buffer to take. */
  predicate CanRecycle(s: Log) {
    (if s.spare1.None? then 1 else 0) + (if s.spare2.None? then 1 else 0) <= |Leftover(s)|
  }

  /** A missing spare takes the last buffer left, log_buffer1 before log_buffer2. */
  function RoundEnded(s: Log, how: Recycling): Log
    requires CanRecycle(s)
  {
    var left := Leftover(s);
    var left2 := if s.spare1.None? then left[..|left| - 1] else left;
    s.(spare1 := if s.spare1.None? then Recycled(left[|left| - 1], how) else s.spare1,
       spare2 := if s.spare2.None? then Recycled(left2[|left2| - 1], how) else s.spare2,
       output := [], phase := AtHead)
  }

  predicate IsEmpty(b: Option<Buffer>) {
    b.Some? && b.value.text == ""
  }

  /** The assertions at the loop head. */
  predicate HeadAsserts(s: Log) {
    IsEmpty(s.spare1) && IsEmpty(s.spare2) && s.output == []
  }

  predicate Enabled(s: Log, step: Step) {
    match step
    case Append(_) => true
    case Stop => true
    case Loop => s.phase.AtHead?
    case Lock => s.phase.AtLock?
    case Wake => s.phase.Waiting?
    case Trim => s.phase.Swapped?
    case Write(taken) => s.phase.Writing? && s.phase.done < |s.output| && taken <= |s.output[s.phase.done].text|
    case Recycle => s.phase.Writing? && s.phase.done == |s.output|
  }

  /** An enabled step neither fails an assertion nor follows a null pointer. */
  predicate Safe(s: Log, step: Step)
    requires Enabled(s, step)
  {
    match step
    case Append(_) => s.cur.Some?
    case Stop => true
    case Loop => s.running ==> HeadAsserts(s)
    case Lock => s.cur.Some?
    case Wake => s.cur.Some?
    case Trim => s.output != []
    case Write(_) => true
    case Recycle => CanRecycle(s)
  }

  function Next(s: Log, step: Step, how: Recycling): Log
    requires Enabled(s, step) && Safe(s, step)
  {
    match step
    case Append(line) => Appended(s, line)
    case Stop => s.(running := false)
    case Loop => s.(phase := if s.running then AtLock else Exited)
    case Lock => if s.queue == [] then s.(phase := Waiting) else SwappedOut(s)
    case Wake => SwappedOut(s)
    case Trim => Trimmed(s)
    case Write(taken) => HandedOver(s, taken)
    case Recycle => RoundEnded(s, how)
  }

  /** A line of SMALL_BUFFER bytes or more fits no buffer and is discarded. */
  function Kept(line: string): string {
    if |line| < SMALL_BUFFER then line else ""
  }

  function DroppedAll(doomed: seq<Buffer>, first: nat, backlog: nat): seq<Fate> {
    seq(|doomed|, i requires 0 <= i < |doomed| => Dropped(doomed[i].text, first + i, backlog))
  }

  function Noted(s: Log, j: Journal, step: Step): Journal
    requires Enabled(s, step)
  {
    match step
    case Append(line) => j.(logged := j.logged + Kept(line))
    case Trim => j.(doomed := if |s.output| > MAX_BACKLOG then s.output[KEPT..] else [], backlog := |s.output|)
    case Write(taken) => j.(fates := j.fates + [Written(s.output[s.phase.done].text, taken, s.phase.done, j.backlog)])
    case Recycle =>
      j.(fates := j.fates + DroppedAll(j.doomed, KEPT, j.backlog), doomed := [], rounds := j.rounds + 1)
    case _ => j
  }

  /** A state with its record, or None once an assertion has failed or a null pointer
      has been followed. */
  type Outcome = Option<(Log, Journal)>

  function Advance(o: Outcome, step: Step, how: Recycling): Outcome {
    if o.None? || !Enabled(o.value.0, step) then o
    else if !Safe(o.value.0, step) then None
    else Some((Next(o.value.0, step, how), Noted(o.value.0, o.value.1, step)))
  }

  /** A run; a step of a thread that does not stand at it changes nothing. */
  function Run(steps: seq<Step>, how: Recycling): Outcome {
    if steps == [] then Some((Initial, Blank))
    else Advance(Run(steps[..|steps| - 1], how), steps[|steps| - 1], how)
  }

  // ---------------------------------------------------------------- the record

  function Texts(fates: seq<Fate>): string {
    if fates == [] then "" else fates[0].text + Texts(fates[1..])
  }

  /** What reached the file of one buffer. */
  function InFile(f: Fate): string {
    if f.Written? && f.taken <= |f.text| then f.text[..f.taken] else ""
  }

  function FileText(fates: seq<Fate>): string {
    if fates == [] then "" else InFile(fates[0]) + FileText(fates[1..])
  }

  /** Only buffers from index 2 on of a round that found more than 25 are dropped. */
  predicate FateFollowsRule(f: Fate) {
    if f.Dropped? then f.backlog > MAX_BACKLOG && f.index >= KEPT
    else f.taken <= |f.text| && (f.backlog > MAX_BACKLOG ==> f.index < KEPT)
  }

  predicate FatesFollowRule(fates: seq<Fate>) {
    forall i :: 0 <= i < |fates| ==> FateFollowsRule(fates[i])
  }

  /** The text of some buffers, one after another. */
  function TextIn(bs: seq<Buffer>): string {
    if bs == [] then "" else bs[0].text + TextIn(bs[1..])
  }

  lemma {:induction false} TextConcat(a: seq<Buffer>, b: seq<Buffer>)
    ensures TextIn(a + b) == TextIn(a) + TextIn(b)
  {
    if a == [] {
      assert a + b == b;
    } else {
      assert (a + b)[1..] == a[1..] + b;
      TextConcat(a[1..], b);
    }
  }

  lemma TextSnoc(bs: seq<Buffer>, last: Buffer)
    ensures TextIn(bs + [last]) == TextIn(bs) + last.text
  {
    TextConcat(bs, [last]);
    assert TextIn([last]) == last.text + TextIn([]);
  }

  function Logged(steps: seq<Step>): string {
    if steps == [] then ""
    else Logged(steps[..|steps| - 1]) + (if steps[|steps| - 1].Append? then Kept(steps[|steps| - 1].line) else "")
  }

  // ---------------------------------------------------------------- invariants

  /** The buffer supply: what exists at each point, and that it suffices. */
  predicate Supplied(s: Log) {
    && s.cur.Some? && |s.cur.value.text| < SMALL_BUFFER
    && (s.next.Some? ==> IsEmpty(s.next))
    && (s.next.None? ==> s.queue != [])
    && if s.phase.Swapped? || s.phase.Writing? then
         && s.output != [] && s.spare1.None?
         && (s.spare2.None? ==> |s.output| >= KEPT)
         && (s.spare2.Some? ==> IsEmpty(s.spare2))
         && (s.phase.Writing? ==> s.phase.done <= |s.output|)
       else HeadAsserts(s)
  }

  /** Everything logged is in the record, in the round at work, queued or current. */
  predicate Conserved(s: Log, j: Journal) {
    j.logged == Settled(s, j) + TextIn(s.queue) + CurrentText(s)
  }

  /** What the log thread has taken: recorded, at work, or about to be dropped. */
  function Settled(s: Log, j: Journal): string {
    Texts(j.fates) + TextIn(Unwritten(s)) + TextIn(j.doomed)
  }

  function CurrentText(s: Log): string {
    if s.cur.Some? then s.cur.value.text else ""
  }

  /** The swapped-out buffers that have not reached the sink yet. */
  function Unwritten(s: Log): seq<Buffer> {
    if s.phase.Writing? && s.phase.done <= |s.output| then s.output[s.phase.done..] else s.output
  }

  predicate Recorded(s: Log, j: Journal) {
    && Conserved(s, j)
    && FatesFollowRule(j.fates) && s.file == FileText(j.fates)
    && (j.doomed != [] ==> s.phase.Writing? && j.backlog > MAX_BACKLOG && |s.output| == KEPT)
    && (s.phase.Writing? && j.backlog > MAX_BACKLOG ==> |s.output| == KEPT)
  }

  predicate Inv(s: Log, j: Journal) {
    Supplied(s) && Recorded(s, j)
  }

  // ---------------------------------------------------------------- supply

  lemma SuppliedIsSafe(s: Log, step: Step)
    requires Supplied(s) && Enabled(s, step)
    ensures Safe(s, step)
  {
  }

  lemma SupplyKept(s: Log, step: Step)
    requires Supplied(s) && Enabled(s, step) && Safe(s, step)
    ensures Supplied(Next(s, step, ResetBuffer))
  {
  }

  // ---------------------------------------------------------------- conservation

  lemma {:induction false} TextsConcat(a: seq<Fate>, b: seq<Fate>)
    ensures Texts(a + b) == Texts(a) + Texts(b)
  {
    if a == [] {
      assert a + b == b;
    } else {
      assert (a + b)[1..] == a[1..] + b;
      TextsConcat(a[1..], b);
    }
  }

  lemma {:induction false} FileConcat(a: seq<Fate>, b: seq<Fate>)
    ensures FileText(a + b) == FileText(a) + FileText(b)
  {
    if a == [] {
      assert a + b == b;
    } else {
      assert (a + b)[1..] == a[1..] + b;
      FileConcat(a[1..], b);
      Assoc(InFile(a[0]), FileText(a[1..]), FileText(b));
    }
  }

  lemma {:induction false} DroppedTexts(doomed: seq<Buffer>, first: nat, backlog: nat)
    ensures Texts(DroppedAll(doomed, first, backlog)) == TextIn(doomed)
    ensures FileText(DroppedAll(doomed, first, backlog)) == ""
  {
    if doomed != [] {
      DroppedTexts(doomed[1..], first + 1, backlog);
      assert DroppedAll(doomed, first, backlog)[1..] == DroppedAll(doomed[1..], first + 1, backlog);
    }
  }

  lemma Assoc(a: string, b: string, c: string)
    ensures a + (b + c) == a + b + c
  {
  }

  lemma PutEmpty(line: string)
    ensures Put(SMALL_BUFFER, "", line) == Kept(line)
  {
  }

  /** What an append adds, it adds at the end of the two buffers' text. */
  lemma AppendText(s: Log, line: string)
    requires s.cur.Some? && |s.cur.value.text| < SMALL_BUFFER && (s.next.Some? ==> IsEmpty(s.next))
    ensures TextIn(Appended(s, line).queue) + CurrentText(Appended(s, line))
            == TextIn(s.queue) + CurrentText(s) + Kept(line)
  {
    var t := Appended(s, line);
    if SMALL_BUFFER - |s.cur.value.text| > |line| {
      assert t.queue == s.queue && CurrentText(t) == s.cur.value.text + line;
      Assoc(TextIn(s.queue), s.cur.value.text, line);
    } else {
      PutEmpty(line);
      assert CurrentText(t) == Kept(line);
      TextSnoc(s.queue, s.cur.value);
    }
  }

  /** Where an append puts its line: into the current buffer while there is room, and otherwise
      at the start of an empty one, the full buffer going to the end of the queue. The next
      buffer is used up first, and one is made only when there is none. */
  lemma AppendPlaces(s: Log, line: string)
    requires s.cur.Some? && |s.cur.value.text| < SMALL_BUFFER && (s.next.Some? ==> IsEmpty(s.next))
    requires |line| < SMALL_BUFFER
    ensures var t := Appended(s, line); var full := s.cur.value;
            t.cur.Some?
            && if |full.text| + |line| < SMALL_BUFFER
               then t == s.(cur := Some(Buffer(full.id, full.text + line)))
               else t.queue == s.queue + [full] && t.cur.value.text == line && t.next == None
                    && t.cur.value.id == (if s.next.Some? then s.next.value.id else s.made)
                    && t.made == s.made + (if s.next.Some? then 0 else 1)
  {
  }

  lemma Regroup(p: string, q: string, c: string, line: string, q': string, c': string)
    requires q' + c' == q + c + line
    ensures p + q + c + line == p + q' + c'
  {
    assert p + q + c + line == p + (q + c + line);
    assert p + q' + c' == p + (q' + c');
  }

  lemma AppendConserved(s: Log, j: Journal, line: string)
    requires Conserved(s, j) && s.cur.Some? && |s.cur.value.text| < SMALL_BUFFER
    requires s.next.Some? ==> IsEmpty(s.next)
    ensures Conserved(Appended(s, line), j.(logged := j.logged + Kept(line)))
  {
    var t, k := Appended(s, line), j.(logged := j.logged + Kept(line));
    AppendText(s, line);
    Regroup(Settled(s, j), TextIn(s.queue), CurrentText(s), Kept(line), TextIn(t.queue), CurrentText(t));
    assert Unwritten(t) == Unwritten(s) && Settled(t, k) == Settled(s, j);
  }

  lemma AppendRecorded(s: Log, j: Journal, line: string)
    requires Inv(s, j)
    ensures Recorded(Appended(s, line), j.(logged := j.logged + Kept(line)))
  {
    AppendConserved(s, j, line);
  }

  lemma EmptyParts(a: string, b: string, c: string)
    ensures a + "" + "" + b + c == a + (b + c) + "" + "" + ""
    ensures a + (b + c) + "" == a + b + c
    ensures (a + b) + "" + "" == a + "" + b
  {
  }

  lemma SwapRecorded(s: Log, j: Journal)
    requires Inv(s, j) && HeadAsserts(s) && !s.phase.Swapped? && !s.phase.Writing?
    ensures Recorded(SwappedOut(s), j)
  {
    TextSnoc(s.queue, s.cur.value);
    EmptyParts(Texts(j.fates), TextIn(s.queue), s.cur.value.text);
    assert Unwritten(s) == [] && Unwritten(SwappedOut(s)) == s.queue + [s.cur.value];
    assert Conserved(SwappedOut(s), j);
  }

  lemma TrimSettled(s: Log, j: Journal)
    requires s.phase.Swapped? && j.doomed == []
    ensures Settled(Trimmed(s), Noted(s, j, Trim)) == Settled(s, j)
  {
    var kept, lost := Trimmed(s).output, Noted(s, j, Trim).doomed;
    assert s.output == kept + lost;
    TextConcat(kept, lost);
    assert kept[0..] == kept;
    EmptyParts(Texts(j.fates), TextIn(kept), TextIn(lost));
  }

  lemma TrimRecorded(s: Log, j: Journal)
    requires Inv(s, j) && s.phase.Swapped?
    ensures Recorded(Trimmed(s), Noted(s, j, Trim))
  {
    TrimSettled(s, j);
  }

  lemma Regroup3(a: string, b: string, c: string, d: string)
    ensures a + (b + c) + d == (a + b) + c + d
  {
  }

  lemma OneWritten(fates: seq<Fate>, f: Fate)
    requires f.Written? && f.taken <= |f.text|
    ensures Texts(fates + [f]) == Texts(fates) + f.text
    ensures FileText(fates + [f]) == FileText(fates) + f.text[..f.taken]
  {
    TextsConcat(fates, [f]);
    FileConcat(fates, [f]);
    assert Texts([f]) == f.text + Texts([]) && FileText([f]) == InFile(f) + FileText([]);
  }

  lemma WriteSettled(s: Log, j: Journal, taken: nat)
    requires Enabled(s, Write(taken))
    ensures Settled(HandedOver(s, taken), Noted(s, j, Write(taken))) == Settled(s, j)
  {
    var i := s.phase.done;
    var t := HandedOver(s, taken);
    assert s.output[i..][1..] == s.output[i + 1..];
    OneWritten(j.fates, Written(s.output[i].text, taken, i, j.backlog));
    Regroup3(Texts(j.fates), s.output[i].text, TextIn(Unwritten(t)), TextIn(j.doomed));
  }

  lemma WriteRecorded(s: Log, j: Journal, taken: nat)
    requires Inv(s, j) && Enabled(s, Write(taken))
    ensures Recorded(HandedOver(s, taken), Noted(s, j, Write(taken)))
  {
    var f := Written(s.output[s.phase.done].text, taken, s.phase.done, j.backlog);
    OneWritten(j.fates, f);
    assert Conserved(HandedOver(s, taken), Noted(s, j, Write(taken))) by {
      WriteSettled(s, j, taken);
    }
  }

  lemma RecycleSettled(s: Log, j: Journal, how: Recycling)
    requires Enabled(s, Recycle) && CanRecycle(s)
    ensures Settled(RoundEnded(s, how), Noted(s, j, Recycle)) == Settled(s, j)
  {
    var ds := DroppedAll(j.doomed, KEPT, j.backlog);
    DroppedTexts(j.doomed, KEPT, j.backlog);
    TextsConcat(j.fates, ds);
    EmptyParts(Texts(j.fates), TextIn(j.doomed), "");
    assert Unwritten(s) == [];
  }

  lemma DroppedFollowRule(fates: seq<Fate>, doomed: seq<Buffer>, backlog: nat)
    requires FatesFollowRule(fates) && (doomed != [] ==> backlog > MAX_BACKLOG)
    ensures FatesFollowRule(fates + DroppedAll(doomed, KEPT, backlog))
  {
  }

  lemma RecycleRecorded(s: Log, j: Journal, how: Recycling)
    requires Inv(s, j) && Enabled(s, Recycle) && CanRecycle(s)
    ensures Recorded(RoundEnded(s, how), Noted(s, j, Recycle))
  {
    var ds := DroppedAll(j.doomed, KEPT, j.backlog);
    assert Conserved(RoundEnded(s, how), Noted(s, j, Recycle)) by { RecycleSettled(s, j, how); }
    assert FileText(j.fates + ds) == FileText(j.fates) by {
      DroppedTexts(j.doomed, KEPT, j.backlog);
      FileConcat(j.fates, ds);
    }
    assert FatesFollowRule(j.fates + ds) by { DroppedFollowRule(j.fates, j.doomed, j.backlog); }
  }

  lemma StepKeepsInv(s: Log, j: Journal, step: Step)
    requires Inv(s, j) && Enabled(s, step)
    ensures Safe(s, step) && Inv(Next(s, step, ResetBuffer), Noted(s, j, step))
  {
    SuppliedIsSafe(s, step);
    SupplyKept(s, step);
    match step
    case Append(line) => AppendRecorded(s, j, line);
    case Lock => if s.queue != [] { SwapRecorded(s, j); }
    case Wake => SwapRecorded(s, j);
    case Trim => TrimRecorded(s, j);
    case Write(taken) => WriteRecorded(s, j, taken);
    case Recycle => RecycleRecorded(s, j, ResetBuffer);
    case _ =>
  }

  // ---------------------------------------------------------------- ownership

  function Holds(b: Option<Buffer>, id: nat): nat {
    if b.Some? && b.value.id == id then 1 else 0
  }

  function Occurs(bs: seq<Buffer>, id: nat): nat {
    if bs == [] then 0 else (if bs[0].id == id then 1 else 0) + Occurs(bs[1..], id)
  }

  /** From how many places the buffer is held. */
  function Owners(s: Log, id: nat): nat {
    Holds(s.cur, id) + Holds(s.next, id) + Occurs(s.queue, id)
    + Holds(s.spare1, id) + Holds(s.spare2, id) + Occurs(s.output, id)
  }

  /** No buffer is owned from two places. */
  ghost predicate OwnedOnce(s: Log) {
    forall id: nat :: Owners(s, id) <= 1 && (id >= s.made ==> Owners(s, id) == 0)
  }

  lemma {:induction false} OccursConcat(a: seq<Buffer>, b: seq<Buffer>, id: nat)
    ensures Occurs(a + b, id) == Occurs(a, id) + Occurs(b, id)
  {
    if a == [] {
      assert a + b == b;
    } else {
      assert (a + b)[1..] == a[1..] + b;
      OccursConcat(a[1..], b, id);
    }
  }

  lemma OccursSnoc(bs: seq<Buffer>, last: Buffer, id: nat)
    ensures Occurs(bs + [last], id) == Occurs(bs, id) + Holds(Some(last), id)
  {
    OccursConcat(bs, [last], id);
    assert Occurs([last], id) == Holds(Some(last), id) + Occurs([], id);
  }

  lemma OccursTake(bs: seq<Buffer>, k: nat, id: nat)
    requires k <= |bs|
    ensures Occurs(bs[..k], id) <= Occurs(bs, id)
  {
    assert bs == bs[..k] + bs[k..];
    OccursConcat(bs[..k], bs[k..], id);
  }

  lemma OccursLast(bs: seq<Buffer>, id: nat)
    requires bs != []
    ensures Occurs(bs, id) == Occurs(bs[..|bs| - 1], id) + Holds(Some(bs[|bs| - 1]), id)
  {
    assert bs == bs[..|bs| - 1] + [bs[|bs| - 1]];
    OccursSnoc(bs[..|bs| - 1], bs[|bs| - 1], id);
  }

  /** An append moves buffers about and may make one. */
  lemma AppendOwners(s: Log, line: string, id: nat)
    requires s.cur.Some?
    ensures var t := Appended(s, line);
            Owners(t, id) == Owners(s, id) + (if t.made > s.made && id == s.made then 1 else 0)
  {
    OccursSnoc(s.queue, s.cur.value, id);
  }

  lemma SwapOwners(s: Log, id: nat)
    requires s.cur.Some?
    ensures Owners(SwappedOut(s), id) == Owners(s, id)
  {
    OccursSnoc(s.queue, s.cur.value, id);
  }

  lemma TrimOwners(s: Log, id: nat)
    ensures Owners(Trimmed(s), id) <= Owners(s, id)
  {
    if |s.output| > MAX_BACKLOG { OccursTake(s.output, KEPT, id); }
  }

  lemma RecycleOwners(s: Log, id: nat)
    requires CanRecycle(s)
    ensures Owners(RoundEnded(s, ResetBuffer), id) <= Owners(s, id)
  {
    var left := Leftover(s);
    if |s.output| > KEPT { OccursTake(s.output, KEPT, id); }
    if s.spare1.None? { OccursLast(left, id); }
    var left2 := if s.spare1.None? then left[..|left| - 1] else left;
    if s.spare2.None? { OccursLast(left2, id); }
  }

  lemma StepOwners(s: Log, step: Step, id: nat)
    requires Enabled(s, step) && Safe(s, step)
    ensures var t := Next(s, step, ResetBuffer);
            s.made <= t.made <= s.made + 1
            && Owners(t, id) <= Owners(s, id) + (if t.made > s.made && id == s.made then 1 else 0)
  {
    match step
    case Append(line) => AppendOwners(s, line, id);
    case Lock => if s.queue != [] { SwapOwners(s, id); }
    case Wake => SwapOwners(s, id);
    case Trim => TrimOwners(s, id);
    case Recycle => RecycleOwners(s, id);
    case _ =>
  }

  lemma StepKeepsOwnership(s: Log, step: Step)
    requires OwnedOnce(s) && Enabled(s, step) && Safe(s, step)
    ensures OwnedOnce(Next(s, step, ResetBuffer))
  {
    var t := Next(s, step, ResetBuffer);
    forall id: nat ensures Owners(t, id) <= 1 && (id >= t.made ==> Owners(t, id) == 0) {
      StepOwners(s, step, id);
      assert Owners(s, id) <= 1;
    }
  }

  // ---------------------------------------------------------------- whole runs

  lemma AdvanceKeeps(s: Log, j: Journal, step: Step)
    requires Inv(s, j) && OwnedOnce(s)
    ensures var o := Advance(Some((s, j)), step, ResetBuffer);
            && o.Some? && Inv(o.value.0, o.value.1) && OwnedOnce(o.value.0)
            && o.value.1.logged == j.logged + if step.Append? then Kept(step.line) else ""
  {
    assert j.logged + "" == j.logged;
    if Enabled(s, step) {
      StepKeepsInv(s, j, step);
      StepKeepsOwnership(s, step);
    }
  }

  /** Every run, however the threads interleave: no assertion of the source fails, no null
      buffer is used, the supply invariant holds, every byte logged is accounted for, and
      no buffer is owned twice. */
  lemma {:induction false} EveryRunIsSound(steps: seq<Step>)
    ensures Run(steps, ResetBuffer).Some?
    ensures var (s, j) := Run(steps, ResetBuffer).value; Inv(s, j) && OwnedOnce(s) && j.logged == Logged(steps)
  {
    if steps != [] {
      var before, step := steps[..|steps| - 1], steps[|steps| - 1];
      EveryRunIsSound(before);
      var (s, j) := Run(before, ResetBuffer).value;
      AdvanceKeeps(s, j, step);
    }
  }

  /** Nothing of the buffer is missing from the file. */
  predicate Intact(f: Fate) {
    f.text == "" || (f.Written? && f.taken == |f.text|)
  }

  predicate AllIntact(fates: seq<Fate>) {
    forall i :: 0 <= i < |fates| ==> Intact(fates[i])
  }

  lemma InFileMatches(f: Fate)
    requires FateFollowsRule(f)
    ensures |InFile(f)| <= |f.text| && (|InFile(f)| == |f.text| <==> Intact(f)) && (Intact(f) ==> InFile(f) == f.text)
  {
  }

  lemma {:induction false} FileMatchesWhenIntact(fates: seq<Fate>)
    requires FatesFollowRule(fates)
    ensures |FileText(fates)| <= |Texts(fates)|
    ensures |FileText(fates)| == |Texts(fates)| <==> AllIntact(fates)
    ensures AllIntact(fates) ==> FileText(fates) == Texts(fates)
  {
    if fates != [] {
      InFileMatches(fates[0]);
      FileMatchesWhenIntact(fates[1..]);
      assert AllIntact(fates) <==> Intact(fates[0]) && AllIntact(fates[1..]);
    }
  }

  lemma PrefixByLength(whole: string, file: string, u: string, lost: string, q: string, c: string)
    requires |file| <= |whole| && (|file| == |whole| <==> file == whole)
    ensures whole + u + lost + q + c == file + u + q + c <==> file == whole && lost == ""
  {
    assert |whole + u + lost + q + c| == |whole| + |u| + |lost| + |q| + |c|;
    assert |file + u + q + c| == |file| + |u| + |q| + |c|;
    if lost == "" { assert whole + u + lost + q + c == whole + u + q + c; }
  }

  /** The file followed by all buffers still in flight is what was logged, so the file is
      a prefix of it, exactly as long as no buffer with text in it was dropped or cut short
      by the sink. By FateFollowsRule a buffer is dropped only in a round that found more
      than 25, from index 2 on. */
  lemma FileIsPrefix(steps: seq<Step>)
    requires Run(steps, ResetBuffer).Some? && Run(steps, ResetBuffer).value.0.cur.Some?
    ensures var (s, j) := Run(steps, ResetBuffer).value;
            FatesFollowRule(j.fates)
            && (Logged(steps) == s.file + TextIn(Unwritten(s)) + TextIn(s.queue) + s.cur.value.text
                <==> AllIntact(j.fates) && TextIn(j.doomed) == "")
  {
    EveryRunIsSound(steps);
    var (s, j) := Run(steps, ResetBuffer).value;
    FileMatchesWhenIntact(j.fates);
    PrefixByLength(Texts(j.fates), s.file, TextIn(Unwritten(s)), TextIn(j.doomed), TextIn(s.queue), s.cur.value.text);
  }

  /** At least one buffer is swapped out in every round, and at least two when both of the
      log thread's spares are used up by it; the rest of the round needs no more. */
  lemma RoundFindsEnough(steps: seq<Step>)
    requires Run(steps, ResetBuffer).Some?
    ensures var s := Run(steps, ResetBuffer).value.0;
            s.phase.Swapped? ==>
              1 <= |s.output| && (s.spare2.None? ==> KEPT <= |s.output|)
              && CanRecycle(Trimmed(s)) && HeadAsserts(RoundEnded(Trimmed(s), ResetBuffer))
  {
    EveryRunIsSound(steps);
  }

  // ---------------------------------------------------------------- no buffer given up too early

  /** Any two neighbours together hold more than one buffer could. */
  predicate Packed(bs: seq<Buffer>) {
    forall i :: 0 <= i && i + 1 < |bs| ==> |bs[i].text| + |bs[i + 1].text| >= SMALL_BUFFER
  }

  function InLine(s: Log): seq<Buffer> {
    s.queue + if s.cur.Some? then [s.cur.value] else []
  }

  predicate AllShort(steps: seq<Step>) {
    forall i :: 0 <= i < |steps| ==> steps[i].Append? ==> |steps[i].line| < SMALL_BUFFER
  }

  lemma AppendPacks(s: Log, line: string)
    requires Supplied(s) && |line| < SMALL_BUFFER && Packed(InLine(s))
    ensures Packed(InLine(Appended(s, line)))
  {
    AppendPlaces(s, line);
    var a, b := InLine(s), InLine(Appended(s, line));
    var n := |s.queue|;
    assert a[n] == s.cur.value;
    forall i | 0 <= i && i + 1 < |b| ensures |b[i].text| + |b[i + 1].text| >= SMALL_BUFFER {
      if i + 1 < |a| { assert |a[i].text| + |a[i + 1].text| >= SMALL_BUFFER; }
      assert i + 1 < n ==> b[i] == a[i] && b[i + 1] == a[i + 1];
    }
  }

  /** A buffer is given up only when the next line does not fit: in every run of lines that fit
      a buffer at all, the queued buffers and the current one are packed. */
  lemma {:induction false} EveryRunPacks(steps: seq<Step>)
    requires Run(steps, ResetBuffer).Some? && AllShort(steps)
    ensures Packed(InLine(Run(steps, ResetBuffer).value.0))
  {
    if steps != [] {
      var before, step := steps[..|steps| - 1], steps[|steps| - 1];
      EveryRunPacks(before);
      EveryRunIsSound(before);
      var s := Run(before, ResetBuffer).value.0;
      assert AllShort(before) && (step.Append? ==> |step.line| < SMALL_BUFFER);
      if Enabled(s, step) { StepPacks(s, step); }
    }
  }

  lemma StepPacks(s: Log, step: Step)
    requires Supplied(s) && Packed(InLine(s)) && Enabled(s, step) && Safe(s, step)
    requires step.Append? ==> |step.line| < SMALL_BUFFER
    ensures Packed(InLine(Next(s, step, ResetBuffer)))
  {
    if step.Append? {
      AppendPacks(s, step.line);
    } else if Swaps(s, step) {
      assert |InLine(Next(s, step, ResetBuffer))| <= 1;
    } else {
      assert InLine(Next(s, step, ResetBuffer)) == InLine(s);
    }
  }

  // ---------------------------------------------------------------- one round of the log thread

  lemma RunSnoc(steps: seq<Step>, step: Step, how: Recycling)
    ensures Run(steps + [step], how) == Advance(Run(steps, how), step, how)
  {
    assert (steps + [step])[..|steps|] == steps;
  }

  /** Steps of the log thread alone lead from the end of a run to t. */
  ghost predicate Leads(steps: seq<Step>, more: seq<Step>, t: Log) {
    && Run(steps + more, ResetBuffer).Some? && Run(steps + more, ResetBuffer).value.0 == t
    && forall i :: 0 <= i < |more| ==> !more[i].Append? && !more[i].Stop?
  }

  lemma LeadsOn(steps: seq<Step>, more: seq<Step>, t: Log, step: Step)
    requires Leads(steps, more, t) && Enabled(t, step) && Safe(t, step) && !step.Append? && !step.Stop?
    ensures Leads(steps, more + [step], Next(t, step, ResetBuffer))
  {
    assert steps + (more + [step]) == (steps + more) + [step];
    RunSnoc(steps + more, step, ResetBuffer);
  }

  lemma {:induction false} WritesAll(steps: seq<Step>, more: seq<Step>, t: Log) returns (rest: seq<Step>)
    requires Leads(steps, more, t) && t.phase.Writing? && t.phase.done <= |t.output|
    ensures Leads(steps, rest, t.(file := t.file + TextIn(t.output[t.phase.done..]), phase := Writing(|t.output|)))
    decreases |t.output| - if t.phase.Writing? then t.phase.done else 0
  {
    var i := t.phase.done;
    if i == |t.output| {
      assert t.file + TextIn(t.output[i..]) == t.file;
      rest := more;
    } else {
      var step, text := Write(|t.output[i].text|), t.output[i].text;
      LeadsOn(steps, more, t, step);
      var u := Next(t, step, ResetBuffer);
      assert text[..|text|] == text;
      rest := WritesAll(steps, more + [step], u);
      assert t.output[i..][1..] == t.output[i + 1..];
      Assoc(t.file, text, TextIn(t.output[i + 1..]));
    }
  }

  /** From the loop test to the end of the swap. */
  lemma Swapping(steps: seq<Step>, s: Log) returns (more: seq<Step>)
    requires Leads(steps, [], s) && Supplied(s) && s.phase.AtHead? && s.running
    ensures Leads(steps, more, SwappedOut(s))
  {
    LeadsOn(steps, [], s, Loop);
    var t := s.(phase := AtLock);
    LeadsOn(steps, [] + [Loop], t, Lock);
    more := [] + [Loop] + [Lock];
    if s.queue == [] {
      LeadsOn(steps, more, s.(phase := Waiting), Wake);
      more := more + [Wake];
      assert SwappedOut(s.(phase := Waiting)) == SwappedOut(s);
    } else {
      assert SwappedOut(t) == SwappedOut(s);
    }
  }

  lemma TwoTexts(bs: seq<Buffer>)
    requires |bs| >= 2
    ensures TextIn(bs[..2]) == bs[0].text + bs[1].text
  {
    assert bs[..2][1..] == [bs[1]] && [bs[1]][1..] == [];
    assert TextIn([bs[1]]) == bs[1].text + TextIn([]);
  }

  lemma RoundGoesOn(steps: seq<Step>, more: seq<Step>, s: Log) returns (rest: seq<Step>, t: Log)
    requires Supplied(s) && s.phase.AtHead? && s.running && Leads(steps, more, SwappedOut(s))
    ensures Leads(steps, rest, t) && t.phase.AtHead? && t.running && t.queue == [] && IsEmpty(t.cur)
    ensures t.file == s.file + TextIn(Trimmed(SwappedOut(s)).output)
  {
    EveryRunIsSound(steps + more);
    var u := SwappedOut(s);
    LeadsOn(steps, more, u, Trim);
    var v := Trimmed(u);
    rest := WritesAll(steps, more + [Trim], v);
    assert v.output[0..] == v.output;
    var w := v.(file := v.file + TextIn(v.output), phase := Writing(|v.output|));
    EveryRunIsSound(steps + rest);
    SuppliedIsSafe(w, Recycle);
    LeadsOn(steps, rest, w, Recycle);
    rest, t := rest + [Recycle], Next(w, Recycle, ResetBuffer);
  }

  /** In every reachable state in which the log thread is at its loop test and not asked to
      stop, its own steps, the wait ending by its timeout, lead through a whole round. A sink
      that takes all then has everything that was queued or current, if that were at most 25
      buffers, and otherwise the first two of them. */
  lemma RoundWritesAll(steps: seq<Step>) returns (more: seq<Step>, t: Log)
    requires Run(steps, ResetBuffer).Some?
    requires var s := Run(steps, ResetBuffer).value.0; s.phase.AtHead? && s.running
    ensures Leads(steps, more, t) && t.phase.AtHead? && t.running && Pending(t) == ""
    ensures var s := Run(steps, ResetBuffer).value.0;
            if |s.queue| < 25 then t.file == s.file + Pending(s)
            else t.file == s.file + (s.queue[0].text + s.queue[1].text)
  {
    EveryRunIsSound(steps);
    var s := Run(steps, ResetBuffer).value.0;
    assert steps + [] == steps;
    more := Swapping(steps, s);
    more, t := RoundGoesOn(steps, more, s);
    var found := s.queue + [s.cur.value];
    if |s.queue| < 25 {
      TextSnoc(s.queue, s.cur.value);
    } else {
      assert found[..2] == s.queue[..2];
      TwoTexts(s.queue);
    }
  }

  // ---------------------------------------------------------------- stopping

  lemma Behind(file: string, q: string, c: string)
    ensures file + [] + q + c == file + (q + c)
    ensures file == file + (q + c) <==> q + c == ""
  {
    assert |file + (q + c)| == |file| + |q + c|;
  }

  /** The step takes the queue and the current buffer out. */
  predicate Swaps(s: Log, step: Step) {
    (step.Lock? && s.phase.AtLock? && s.queue != []) || (step.Wake? && s.phase.Waiting?)
  }

  /** The text appended since the last swap of a run. */
  function SinceSwap(steps: seq<Step>): string {
    if steps == [] then "" else
    var before, step := steps[..|steps| - 1], steps[|steps| - 1];
    var o := Run(before, ResetBuffer);
    if step.Append? then SinceSwap(before) + Kept(step.line)
    else if o.Some? && Swaps(o.value.0, step) then ""
    else SinceSwap(before)
  }

  function Pending(s: Log): string {
    TextIn(s.queue) + CurrentText(s)
  }

  lemma SwapEmpties(s: Log)
    requires Supplied(s) && HeadAsserts(s) && !s.phase.Swapped? && !s.phase.Writing?
    ensures Pending(SwappedOut(s)) == ""
  {
  }

  lemma PendingStep(s: Log, step: Step)
    requires Supplied(s) && Enabled(s, step) && Safe(s, step)
    ensures Pending(Next(s, step, ResetBuffer))
         == if step.Append? then Pending(s) + Kept(step.line) else if Swaps(s, step) then "" else Pending(s)
  {
    if step.Append? {
      AppendText(s, step.line);
    } else if Swaps(s, step) {
      SwapEmpties(s);
    }
  }

  /** What is queued or current is what was appended since the last swap. */
  lemma {:induction false} PendingIsSinceSwap(steps: seq<Step>)
    requires Run(steps, ResetBuffer).Some?
    ensures Pending(Run(steps, ResetBuffer).value.0) == SinceSwap(steps)
  {
    if steps != [] {
      var before, step := steps[..|steps| - 1], steps[|steps| - 1];
      PendingIsSinceSwap(before);
      EveryRunIsSound(before);
      var (s, j) := Run(before, ResetBuffer).value;
      if Enabled(s, step) {
        assert Supplied(s);
        PendingStep(s, step);
      }
    }
  }

  /** When the log thread has left its loop, whatever was appended since its last swap stays
      behind: with nothing dropped the file is complete exactly when that is nothing. */
  lemma ExitLeavesBuffers(steps: seq<Step>)
    requires Run(steps, ResetBuffer).Some? && Run(steps, ResetBuffer).value.0.cur.Some?
    requires var (s, j) := Run(steps, ResetBuffer).value; s.phase.Exited? && AllIntact(j.fates)
    ensures var s := Run(steps, ResetBuffer).value.0;
            Logged(steps) == s.file + SinceSwap(steps) && (s.file == Logged(steps) <==> SinceSwap(steps) == "")
  {
    EveryRunIsSound(steps);
    FileIsPrefix(steps);
    PendingIsSinceSwap(steps);
    var (s, j) := Run(steps, ResetBuffer).value;
    assert Unwritten(s) == [];
    Behind(s.file, TextIn(s.queue), s.cur.value.text);
  }

  /** stop() after an append loses the line: nothing is swapped out on the way out. */
  lemma StopCanLoseALine()
    ensures var o := Run([Append("x"), Stop, Loop], ResetBuffer);
            o.Some? && o.value.0.phase.Exited? && o.value.0.file == "" && Logged([Append("x"), Stop, Loop]) == "x"
  {
    var steps := [Append("x"), Stop, Loop];
    assert steps[..2] == [Append("x"), Stop] && steps[..2][..1] == [Append("x")] && steps[..2][..1][..0] == [];
    assert Run(steps[..2][..1], ResetBuffer) == Advance(Run([], ResetBuffer), Append("x"), ResetBuffer);
    assert Run(steps[..2], ResetBuffer) == Advance(Run(steps[..2][..1], ResetBuffer), Stop, ResetBuffer);
    assert Logged(steps[..2][..1]) == "" + "x";
  }

  // ---------------------------------------------------------------- as written

  /** With the pointers reset instead of the buffers, the first round behaves as above and
      leaves the log thread without its first spare. */
  predicate InvAsWritten(s: Log, j: Journal) {
    && Recorded(s, j) && j.rounds <= 1
    && (j.rounds == 0 ==> Supplied(s))
    && (j.rounds == 1 ==>
          && (s.phase.AtHead? || s.phase.Exited?) && s.spare1.None? && s.output == []
          && s.cur.Some? && |s.cur.value.text| < SMALL_BUFFER && (s.next.Some? ==> IsEmpty(s.next)))
  }

  lemma RoundAsWritten(s: Log, j: Journal)
    requires InvAsWritten(s, j) && j.rounds == 0 && Enabled(s, Recycle) && Safe(s, Recycle)
    ensures InvAsWritten(RoundEnded(s, ResetPointer), Noted(s, j, Recycle))
  {
    RecycleRecorded(s, j, ResetPointer);
  }

  lemma AppendShape(s: Log, line: string)
    requires s.cur.Some? && |s.cur.value.text| < SMALL_BUFFER && (s.next.Some? ==> IsEmpty(s.next))
    ensures var t := Appended(s, line);
            && t.cur.Some? && |t.cur.value.text| < SMALL_BUFFER && (t.next.Some? ==> IsEmpty(t.next))
            && t == s.(cur := t.cur, next := t.next, queue := t.queue, made := t.made)
  {
  }

  lemma AppendAsWritten(s: Log, j: Journal, line: string)
    requires InvAsWritten(s, j) && j.rounds == 1
    ensures InvAsWritten(Appended(s, line), j.(logged := j.logged + Kept(line)))
  {
    AppendShape(s, line);
    AppendConserved(s, j, line);
  }

  lemma AfterRoundAsWritten(s: Log, j: Journal, step: Step)
    requires InvAsWritten(s, j) && j.rounds == 1 && Enabled(s, step) && Safe(s, step)
    ensures InvAsWritten(Next(s, step, ResetPointer), Noted(s, j, step))
  {
    match step
    case Append(line) => AppendAsWritten(s, j, line);
    case _ =>
  }

  lemma StepAsWritten(s: Log, j: Journal, step: Step)
    requires InvAsWritten(s, j) && Enabled(s, step) && Safe(s, step)
    ensures InvAsWritten(Next(s, step, ResetPointer), Noted(s, j, step))
  {
    if j.rounds == 1 {
      AfterRoundAsWritten(s, j, step);
    } else if step.Recycle? {
      RoundAsWritten(s, j);
    } else {
      StepKeepsInv(s, j, step);
      assert Next(s, step, ResetPointer) == Next(s, step, ResetBuffer);
    }
  }

  lemma FailsExactly(s: Log, j: Journal, step: Step)
    requires InvAsWritten(s, j)
    ensures Advance(Some((s, j)), step, ResetPointer).None?
       <==> j.rounds == 1 && step.Loop? && s.phase.AtHead? && s.running
  {
    if j.rounds == 0 && Enabled(s, step) { SuppliedIsSafe(s, step); }
  }

  lemma {:induction false} RunAsWritten(steps: seq<Step>)
    requires Run(steps, ResetPointer).Some?
    ensures var (s, j) := Run(steps, ResetPointer).value; InvAsWritten(s, j)
  {
    if steps != [] {
      var before, last := steps[..|steps| - 1], steps[|steps| - 1];
      RunAsWritten(before);
      var (s, j) := Run(before, ResetPointer).value;
      if Enabled(s, last) { StepAsWritten(s, j, last); }
    }
  }

  /** The code as written never gets through a second round: a run survives only while at
      most one round has ended, and after that round the loop test with is_running_ still
      set is exactly what makes it fail. */
  lemma AsWrittenOneRound(steps: seq<Step>, step: Step)
    requires Run(steps, ResetPointer).Some?
    ensures var (s, j) := Run(steps, ResetPointer).value;
            InvAsWritten(s, j)
            && (Advance(Some((s, j)), step, ResetPointer).None?
                <==> j.rounds == 1 && step.Loop? && s.phase.AtHead? && s.running)
  {
    RunAsWritten(steps);
    var (s, j) := Run(steps, ResetPointer).value;
    FailsExactly(s, j, step);
  }
}
