/** The read and write loops of Util.cpp and the output side of HttpData. A script of
    results stands for the system calls; used up, it answers EAGAIN. */
module SocketIO {
  import opened Prelude

  const MAX_BUFFER_SIZE: nat := 4096

  // ---------------------------------------------------------------- writen

  /** The result of one write call: n bytes taken (at most what was offered), or errno. */
  datatype Reply = Took(n: nat) | Interrupted | WouldBlock | Failed

  /** What a sequence of write calls takes of left bytes, and whether it ends in an error
      other than EINTR and EAGAIN. */
  function Taken(script: seq<Reply>, left: nat): (nat, bool)
    decreases |script|
  {
    if left == 0 || script == [] then (0, false) else
    match script[0]
    case Took(n) =>
      var (more, failed) := Taken(script[1..], left - Min(n, left));
      (Min(n, left) + more, failed)
    case Interrupted => Taken(script[1..], left)
    case WouldBlock => (0, false)
    case Failed => (0, true)
  }

  lemma {:induction false} TakenBound(script: seq<Reply>, left: nat)
    ensures Taken(script, left).0 <= left
    decreases |script|
  {
    if left > 0 && script != [] {
      match script[0]
      case Took(n) => TakenBound(script[1..], left - Min(n, left));
      case Interrupted => TakenBound(script[1..], left);
      case _ =>
    }
  }

  /** The loop goes on after bytes taken and after EINTR. */
  predicate GoesOn(r: Reply) {
    r.Took? || r.Interrupted?
  }

  predicate AllGoOn(script: seq<Reply>) {
    forall i :: 0 <= i < |script| ==> GoesOn(script[i])
  }

  /** The first reply that would end the loop by itself, or the end of the script. */
  predicate EndsAt(script: seq<Reply>, k: nat) {
    k <= |script| && AllGoOn(script[..k]) && (k < |script| ==> !GoesOn(script[k]))
  }

  function TookInAll(script: seq<Reply>): nat {
    if script == [] then 0 else (if script[0].Took? then script[0].n else 0) + TookInAll(script[1..])
  }

  lemma {:induction false} SomeEnd(script: seq<Reply>) returns (k: nat)
    ensures EndsAt(script, k)
  {
    if script == [] || !GoesOn(script[0]) {
      k := 0;
    } else {
      var j := SomeEnd(script[1..]);
      k := j + 1;
      assert script[..k] == [script[0]] + script[1..][..j];
    }
  }

  /** Exactly as many bytes go out as the calls in front of the first EAGAIN or hard error take
      together, up to all of them, over any number of partial writes and interruptions; the
      call fails exactly when a hard error comes before all are out. */
  lemma {:induction false} TakenIs(script: seq<Reply>, left: nat, k: nat)
    requires EndsAt(script, k)
    ensures var sum := TookInAll(script[..k]);
            Taken(script, left) == (Min(left, sum), k < |script| && script[k].Failed? && sum < left)
    decreases k
  {
    if k > 0 {
      assert GoesOn(script[..k][0]);
      assert script[..k][1..] == script[1..][..k - 1];
      var rest := script[1..][..k - 1];
      assert AllGoOn(rest) by {
        forall i | 0 <= i < |rest| ensures GoesOn(rest[i]) { assert rest[i] == script[..k][i + 1]; }
      }
      if left > 0 {
        TakenIs(script[1..], left - (if script[0].Took? then Min(script[0].n, left) else 0), k - 1);
      }
    }
  }

  class Socket {
    var wire: string           // every byte a write took, in order
    var script: seq<Reply>

    constructor (script: seq<Reply>)
      ensures wire == "" && this.script == script
    {
      wire, this.script := "", script;
    }

    method Write(data: string) returns (r: Reply)
      modifies this
      ensures r == (if old(script) == [] then WouldBlock
                    else if old(script)[0].Took? then Took(Min(old(script)[0].n, |data|)) else old(script)[0])
      ensures script == if old(script) == [] then [] else old(script)[1..]
      ensures r.Took? ==> r.n <= |data|
      ensures wire == if r.Took? then old(wire) + data[..r.n] else old(wire)
    {
      if script == [] { return WouldBlock; }
      r := script[0];
      script := script[1..];
      if r.Took? {
        r := Took(Min(r.n, |data|));
        wire := wire + data[..r.n];
      }
    }

    /** The loop of writen over the bytes of a buffer. */
    method WriteLoop(buffer: string) returns (sum: nat, failed: bool)
      modifies this
      ensures (sum, failed) == Taken(old(script), |buffer|) && sum <= |buffer|
      ensures wire == old(wire) + buffer[..sum]
    {
      TakenBound(script, |buffer|);
      ghost var whole := Taken(script, |buffer|);
      sum, failed := 0, false;
      var more := true;
      while more && sum < |buffer|
        invariant sum <= |buffer| && !failed
        invariant whole == (var t := if more then Taken(script, |buffer| - sum) else (0, false); (sum + t.0, t.1))
        invariant wire == old(wire) + buffer[..sum]
        decreases more, |script|
      {
        var r := Write(buffer[sum..]);
        match r {
          case Took(n) =>
            assert buffer[..sum] + buffer[sum..][..n] == buffer[..sum + n];
            sum := sum + n;
          case Interrupted =>
          case WouldBlock => more := false;
          case Failed =>
            failed := true;
            return;
        }
      }
    }

    /** writen(fd, buffer): what was taken leaves the buffer, unless the call fails; then the
        buffer stays whole although some of it may be on the wire. */
    method WriteN(buffer: string) returns (result: int, rest: string)
      modifies this
      ensures var (sum, failed) := Taken(old(script), |buffer|);
              sum <= |buffer| && wire == old(wire) + buffer[..sum]
              && result == (if failed then -1 else sum) && rest == (if failed then buffer else buffer[sum..])
    {
      var sum, failed := WriteLoop(buffer);
      if failed {
        return -1, buffer;
      }
      rest := if sum == |buffer| then "" else buffer[sum..];
      result := sum;
    }
  }

  // ---------------------------------------------------------------- the output buffer

  /** A connection's output: the wire, buffer_out_, is_error_ and events_. */
  datatype Output = Output(wire: string, buffer: string, isError: bool, events: Mask)

  datatype OutStep = AppendOut(text: string) | HandleWrite(script: seq<Reply>)

  /** handle_write on a connected socket. */
  function AfterWrite(o: Output, script: seq<Reply>): Output {
    if o.isError then o else
    var (sum, failed) := Taken(script, |o.buffer|);
    TakenBound(script, |o.buffer|);
    var left := if failed then o.buffer else o.buffer[sum..];
    var events := if failed then NOTHING else o.events;
    Output(o.wire + o.buffer[..sum], left, failed, if left != "" then events.(output := true) else events)
  }

  function NextOutput(o: Output, step: OutStep): Output {
    match step
    case AppendOut(text) => o.(buffer := o.buffer + text)
    case HandleWrite(script) => AfterWrite(o, script)
  }

  function RunOutput(steps: seq<OutStep>): Output {
    if steps == [] then Output("", "", false, NOTHING)
    else NextOutput(RunOutput(steps[..|steps| - 1]), steps[|steps| - 1])
  }

  function AppendedText(steps: seq<OutStep>): string {
    if steps == [] then ""
    else AppendedText(steps[..|steps| - 1])
         + (if steps[|steps| - 1].AppendOut? then steps[|steps| - 1].text else "")
  }

  lemma SplitAt(wire: string, buffer: string, sum: nat)
    requires sum <= |buffer|
    ensures wire + buffer == wire + buffer[..sum] + buffer[sum..]
  {
    assert buffer == buffer[..sum] + buffer[sum..];
  }

  lemma PrefixExtends(a: string, b: string, c: string)
    requires a <= b
    ensures a <= b + c
  {
  }

  /** Until a hard error the wire and the buffer together are what was appended, so nothing
      is lost or sent twice; even after one the wire stays a prefix of it. */
  lemma {:induction false} WireIsPrefix(steps: seq<OutStep>)
    ensures var o := RunOutput(steps);
            o.wire <= AppendedText(steps) && (!o.isError ==> o.wire + o.buffer == AppendedText(steps))
  {
    if steps != [] {
      var before, step := steps[..|steps| - 1], steps[|steps| - 1];
      WireIsPrefix(before);
      var o := RunOutput(before);
      match step
      case AppendOut(text) =>
        PrefixExtends(o.wire, AppendedText(before), text);
        assert o.wire + (o.buffer + text) == o.wire + o.buffer + text;
      case HandleWrite(script) =>
        if !o.isError {
          TakenBound(script, |o.buffer|);
          SplitAt(o.wire, o.buffer, Taken(script, |o.buffer|).0);
        }
    }
  }

  /** What one handle_write does: the bytes that go out leave the buffer unless the call fails;
      then the buffer stays whole, the mask is cleared and the connection is in error. EPOLLOUT
      is asked for whenever bytes are left. */
  lemma WriteDoes(o: Output, script: seq<Reply>, k: nat)
    requires !o.isError && EndsAt(script, k)
    ensures var t := AfterWrite(o, script);
            var taken := TookInAll(script[..k]); var sum := Min(|o.buffer|, taken);
            && t.wire == o.wire + o.buffer[..sum]
            && (t.isError <==> k < |script| && script[k].Failed? && taken < |o.buffer|)
            && t.buffer == (if t.isError then o.buffer else o.buffer[sum..])
            && (t.events.output <==> t.buffer != "" || (!t.isError && o.events.output))
            && t.events.(output := false) == if t.isError then NOTHING else o.events.(output := false)
  {
    TakenIs(script, |o.buffer|, k);
  }

  /** A write that leaves bytes behind asks for EPOLLOUT, failed or not. */
  lemma OutRequested(steps: seq<OutStep>, script: seq<Reply>)
    requires !RunOutput(steps).isError
    ensures var o := RunOutput(steps + [HandleWrite(script)]);
            o.buffer != "" ==> o.events.output
  {
    assert (steps + [HandleWrite(script)])[..|steps|] == steps;
  }

  /** One handle_read as far as the output goes: the mask starts empty, analyze_request adds
      its text, and what is there is written unless an error stands. */
  datatype Serve = Serve(text: string, script: seq<Reply>)

  function Served(o: Output, serve: Serve): Output {
    var o1 := o.(buffer := o.buffer + serve.text, events := NOTHING);
    if o1.isError || o1.buffer == "" then o1 else AfterWrite(o1, serve.script)
  }

  function RunServes(serves: seq<Serve>): Output {
    if serves == [] then Output("", "", false, NOTHING)
    else Served(RunServes(serves[..|serves| - 1]), serves[|serves| - 1])
  }

  function ServedText(serves: seq<Serve>): string {
    if serves == [] then "" else ServedText(serves[..|serves| - 1]) + serves[|serves| - 1].text
  }

  /** Over every run of them: without a hard error the wire and the buffer together are all the
      text, and EPOLLOUT is asked for exactly while some of it is unsent. */
  lemma {:induction false} ServesRequestOut(serves: seq<Serve>)
    ensures var o := RunServes(serves);
            o.wire <= ServedText(serves)
            && (!o.isError ==> o.wire + o.buffer == ServedText(serves) && (o.events.output <==> o.buffer != ""))
  {
    if serves != [] {
      var before, serve := serves[..|serves| - 1], serves[|serves| - 1];
      ServesRequestOut(before);
      ServeKeeps(RunServes(before), serve, ServedText(before));
    }
  }

  lemma ServeKeeps(o: Output, serve: Serve, text: string)
    requires o.wire <= text && (!o.isError ==> o.wire + o.buffer == text)
    ensures var t := Served(o, serve);
            t.wire <= text + serve.text
            && (!t.isError ==> t.wire + t.buffer == text + serve.text && (t.events.output <==> t.buffer != ""))
  {
    PrefixExtends(o.wire, text, serve.text);
    assert o.wire + (o.buffer + serve.text) == o.wire + o.buffer + serve.text;
    if !o.isError {
      var buffer := o.buffer + serve.text;
      TakenBound(serve.script, |buffer|);
      SplitAt(o.wire, buffer, Taken(serve.script, |buffer|).0);
    }
  }

  /** When the calls of the last handle_read take enough, everything ever appended is on the
      wire. */
  lemma EnoughGoesOut(serves: seq<Serve>, serve: Serve, k: nat)
    requires !RunServes(serves).isError && EndsAt(serve.script, k)
    requires |RunServes(serves).buffer| + |serve.text| <= TookInAll(serve.script[..k])
    ensures var o := RunServes(serves + [serve]);
            !o.isError && o.buffer == "" && o.wire == ServedText(serves + [serve])
  {
    assert (serves + [serve])[..|serves|] == serves;
    ServesRequestOut(serves + [serve]);
    var o := RunServes(serves);
    var o1 := o.(buffer := o.buffer + serve.text, events := NOTHING);
    if o1.buffer != "" { WriteDoes(o1, serve.script, k); }
    assert RunServes(serves + [serve]) == Served(o, serve);
    var t := Served(o, serve);
    assert t.wire + "" == t.wire;
  }

  /** The output members of HttpData, and handle_write on them. */
  class OutputSide {
    const socket: Socket
    var bufferOut: string
    var isError: bool
    var disconnected: bool
    var events: Mask

    ghost function State(): Output
      reads this, socket
    {
      Output(socket.wire, bufferOut, isError, events)
    }

    constructor (socket: Socket)
      ensures this.socket == socket && State() == Output(socket.wire, "", false, NOTHING) && !disconnected
    {
      this.socket := socket;
      bufferOut, isError, disconnected, events := "", false, false, NOTHING;
    }

    method HandleWriteEvent()
      modifies this, socket
      ensures disconnected == old(disconnected)
      ensures State() == if disconnected then old(State()) else AfterWrite(old(State()), old(socket.script))
    {
      if !isError && !disconnected {
        ghost var (sum, failed) := Taken(socket.script, |bufferOut|);
        var result, rest := socket.WriteN(bufferOut);
        assert result < 0 <==> failed;
        bufferOut := rest;
        if result < 0 {
          events, isError := NOTHING, true;
        }
        if |bufferOut| > 0 {
          events := events.(output := true);
        }
      }
    }
  }

  // ---------------------------------------------------------------- readn

  /** The result of one read call: up to MAX_BUFFER_SIZE bytes, end of file, or errno. */
  datatype Incoming = Data(bytes: string) | EndOfFile | ReadInterrupted | ReadWouldBlock | ReadFailed

  predicate Plausible(script: seq<Incoming>) {
    forall i :: 0 <= i < |script| ==> script[i].Data? ==> 1 <= |script[i].bytes| <= MAX_BUFFER_SIZE
  }

  datatype Ending = AtEnd | Drained | Broken

  /** What arrives before the reading stops, and how it stops. */
  function Arrived(script: seq<Incoming>): (string, Ending)
    decreases |script|
  {
    if script == [] then ("", Drained) else
    match script[0]
    case Data(bytes) => var (more, end) := Arrived(script[1..]); (bytes + more, end)
    case ReadInterrupted => Arrived(script[1..])
    case EndOfFile => ("", AtEnd)
    case ReadWouldBlock => ("", Drained)
    case ReadFailed => ("", Broken)
  }

  predicate ReadsOn(i: Incoming) {
    i.Data? || i.ReadInterrupted?
  }

  predicate AllReadOn(script: seq<Incoming>) {
    forall i :: 0 <= i < |script| ==> ReadsOn(script[i])
  }

  function DataIn(script: seq<Incoming>): string {
    if script == [] then "" else (if script[0].Data? then script[0].bytes else "") + DataIn(script[1..])
  }

  /** What arrives is the data in front of the first end of file, EAGAIN or hard error, over any
      number of reads and interruptions; and that says how the reading stops. */
  lemma {:induction false} ArrivedIs(script: seq<Incoming>, k: nat)
    requires k <= |script| && AllReadOn(script[..k]) && (k < |script| ==> !ReadsOn(script[k]))
    ensures Arrived(script).0 == DataIn(script[..k])
    ensures Arrived(script).1 == if k == |script| || script[k].ReadWouldBlock? then Drained
                                 else if script[k].EndOfFile? then AtEnd else Broken
    decreases k
  {
    if k > 0 {
      assert ReadsOn(script[..k][0]);
      assert script[..k][1..] == script[1..][..k - 1];
      var rest := script[1..][..k - 1];
      forall i | 0 <= i < |rest| ensures ReadsOn(rest[i]) { assert rest[i] == script[..k][i + 1]; }
      ArrivedIs(script[1..], k - 1);
    }
  }

  /** readn(fd, buffer, zero): everything up to the stop is appended, also when the call
      then fails; zero reports the end of the stream. */
  method ReadN(script: seq<Incoming>, buffer: string) returns (result: int, filled: string, zero: bool)
    requires Plausible(script)
    ensures var (arrived, end) := Arrived(script);
            filled == buffer + arrived && (zero <==> end.AtEnd?)
            && result == if end.Broken? then -1 else |arrived|
  {
    filled, zero, result := buffer, false, 0;
    ghost var (arrived, end) := Arrived(script);
    for i := 0 to |script|
      invariant !zero && result >= 0 && |filled| == |buffer| + result
      invariant var (more, e) := Arrived(script[i..]); filled + more == buffer + arrived && e == end
    {
      assert script[i..][1..] == script[i + 1..];
      match script[i] {
        case Data(bytes) =>
          assert filled + (bytes + Arrived(script[i + 1..]).0) == filled + bytes + Arrived(script[i + 1..]).0;
          result := result + |bytes|;
          filled := filled + bytes;
        case ReadInterrupted =>
        case EndOfFile =>
          zero := true;
          return;
        case ReadWouldBlock => return;
        case ReadFailed =>
          result := -1;
          return;
      }
    }
  }
}
