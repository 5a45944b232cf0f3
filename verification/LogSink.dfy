/** The log thread's sink: the partial-write loop of AppendUtil and the flush counter of
    AppendLog (LogUtil.cpp). fwrite and fflush are foreign; a script of results stands
    for them, and once it is used up every fwrite takes all it is given. */
module LogSink {
  import opened Prelude

  /** What fwrite returns when asked for len bytes. */
  function Accepts(script: seq<nat>, len: nat): nat {
    if script == [] then len else Min(script[0], len)
  }

  function After(script: seq<nat>): seq<nat> {
    if script == [] then [] else script[1..]
  }

  /** Bytes taken by the retry loop; a retry that takes nothing ends it. */
  function Retried(script: seq<nat>, remained: nat): nat
    decreases remained
  {
    var n := Accepts(script, remained);
    if remained == 0 || n == 0 then 0 else n + Retried(After(script), remained - n)
  }

  /** Bytes taken by one AppendUtil::append; its first call may take nothing. */
  function Finished(script: seq<nat>, len: nat): nat {
    var n := Accepts(script, len);
    n + Retried(After(script), len - n)
  }

  function Sum(ns: seq<nat>): nat {
    if ns == [] then 0 else ns[0] + Sum(ns[1..])
  }

  /** Call number k (counting from 0) takes nothing although bytes remain, and no retry
      before it did. */
  predicate GivesUpAt(script: seq<nat>, len: nat, k: int) {
    1 <= k < |script| && script[k] == 0 && Sum(script[..k]) < len && forall i :: 1 <= i < k ==> script[i] > 0
  }

  predicate StopsAt(script: seq<nat>, remained: nat, k: int) {
    0 <= k < |script| && script[k] == 0 && Sum(script[..k]) < remained && forall i :: 0 <= i < k ==> script[i] > 0
  }

  lemma {:induction false} RetriedBound(script: seq<nat>, remained: nat)
    ensures Retried(script, remained) <= remained
    decreases remained
  {
    var n := Accepts(script, remained);
    if remained > 0 && n > 0 { RetriedBound(After(script), remained - n); }
  }

  lemma {:induction false} RetriedShort(script: seq<nat>, remained: nat)
    ensures Retried(script, remained) < remained <==> exists k :: StopsAt(script, remained, k)
    decreases remained
  {
    if remained > 0 && script != [] && script[0] > 0 {
      var rest, left := script[1..], remained - Accepts(script, remained);
      RetriedShort(rest, left);
      if k :| StopsAt(rest, left, k) {
        assert script[..k + 1][1..] == rest[..k];
        assert StopsAt(script, remained, k + 1);
      }
      if k :| StopsAt(script, remained, k) {
        assert script[..k][1..] == rest[..k - 1];
        assert StopsAt(rest, left, k - 1);
      }
    } else if remained > 0 && script != [] {
      assert StopsAt(script, remained, 0);
    }
  }

  lemma {:induction false} RetriedAmount(script: seq<nat>, remained: nat, k: nat)
    requires StopsAt(script, remained, k)
    ensures Retried(script, remained) == Sum(script[..k])
    decreases k
  {
    if k > 0 {
      var rest := script[1..];
      assert script[..k][1..] == rest[..k - 1];
      forall i | 0 <= i < k - 1 ensures rest[i] > 0 { assert script[i + 1] > 0; }
      RetriedAmount(rest, remained - script[0], k - 1);
    }
  }

  /** What went into the file when call k gave up is what the calls before it took. */
  lemma AmountWhenRetryFails(script: seq<nat>, len: nat, k: int)
    requires GivesUpAt(script, len, k)
    ensures Finished(script, len) == Sum(script[..k])
  {
    var rest := script[1..];
    assert script[..k][1..] == rest[..k - 1];
    forall i | 0 <= i < k - 1 ensures rest[i] > 0 { assert script[i + 1] > 0; }
    RetriedAmount(rest, len - script[0], k - 1);
  }

  /** The sink loses the tail of a line exactly when a retry takes nothing; then the file has
      got what the calls before it took. */
  lemma ShortExactlyWhenRetryFails(script: seq<nat>, len: nat)
    ensures Finished(script, len) <= len
    ensures Finished(script, len) < len <==> exists k :: GivesUpAt(script, len, k)
    ensures forall k :: GivesUpAt(script, len, k) ==> Finished(script, len) == Sum(script[..k])
  {
    var rest, left := After(script), len - Accepts(script, len);
    RetriedBound(rest, left);
    RetriedShort(rest, left);
    forall k | GivesUpAt(script, len, k) ensures Finished(script, len) == Sum(script[..k]) {
      AmountWhenRetryFails(script, len, k);
    }
    if k :| StopsAt(rest, left, k) {
      assert script[..k + 1][1..] == rest[..k];
      forall i | 1 <= i < k + 1 ensures script[i] > 0 { assert rest[i - 1] > 0; }
      assert GivesUpAt(script, len, k + 1);
    }
    if k :| GivesUpAt(script, len, k) {
      assert script[..k][1..] == rest[..k - 1];
      assert StopsAt(rest, left, k - 1);
    }
  }

  predicate NoZero(script: seq<nat>) {
    forall i :: 0 <= i < |script| ==> script[i] > 0
  }

  /** When no call takes nothing, every line gets into the file whole. */
  lemma WholeWithoutZero(script: seq<nat>, len: nat)
    requires NoZero(script)
    ensures Finished(script, len) == len
  {
    ShortExactlyWhenRetryFails(script, len);
  }

  lemma AfterKeepsNoZero(script: seq<nat>)
    ensures NoZero(script) ==> NoZero(After(script))
  {
  }

  /** A stdio stream opened for appending. */
  class Stream {
    var taken: string       // every byte fwrite accepted, in order
    var flushed: nat        // how many of them fflush has passed on
    var script: seq<nat>    // results of the coming fwrite calls

    ghost predicate Valid()
      reads this
    {
      flushed <= |taken|
    }

    constructor (script: seq<nat>)
      ensures Valid() && taken == "" && flushed == 0 && this.script == script
    {
      taken, flushed, this.script := "", 0, script;
    }

    method Write(line: string) returns (n: nat)
      requires Valid()
      modifies this`taken, this`script
      ensures Valid() && n == Accepts(old(script), |line|) && n <= |line|
      ensures taken == old(taken) + line[..n] && script == After(old(script))
    {
      n := Accepts(script, |line|);
      taken := taken + line[..n];
      script := After(script);
    }

    method Flush()
      requires Valid()
      modifies this`flushed
      ensures Valid() && flushed == |taken|
    {
      flushed := |taken|;
    }
  }

  lemma SliceJoin(line: string, from: nat, to: nat, n: nat)
    requires from <= to && to + n <= |line|
    ensures line[from..to] + line[to..to + n] == line[from..to + n]
  {
  }

  method WriteFrom(file: Stream, line: string, from: nat) returns (n: nat)
    requires file.Valid() && from <= |line|
    modifies file`taken, file`script
    ensures file.Valid() && n == Accepts(old(file.script), |line| - from) && from + n <= |line|
    ensures file.taken == old(file.taken) + line[from..from + n] && file.script == After(old(file.script))
  {
    n := file.Write(line[from..]);
    assert line[from..][..n] == line[from..from + n];
  }

  /** The same behind what has gone out since start. */
  method WriteMore(file: Stream, line: string, start: nat, from: nat) returns (n: nat)
    requires file.Valid() && start <= from <= |line|
    modifies file`taken, file`script
    ensures file.Valid() && n == Accepts(old(file.script), |line| - from) && from + n <= |line|
    ensures file.script == After(old(file.script))
    ensures forall before :: old(file.taken) == before + line[start..from] ==>
              file.taken == before + line[start..from + n]
  {
    n := WriteFrom(file, line, from);
    forall before | old(file.taken) == before + line[start..from]
      ensures file.taken == before + line[start..from + n]
    {
      SliceJoin(line, start, from, n);
      assert before + line[start..from] + line[from..from + n] == before + (line[start..from] + line[from..from + n]);
    }
  }

  lemma RetriedOnce(script: seq<nat>, remained: nat)
    requires remained > 0
    ensures var n := Accepts(script, remained);
            n <= remained && Retried(script, remained) == if n == 0 then 0 else n + Retried(After(script), remained - n)
  {
  }

  /** The retry loop of AppendUtil::append. */
  method RetryRest(file: Stream, line: string, start: nat) returns (finished: nat)
    requires file.Valid() && start <= |line|
    modifies file`taken, file`script
    ensures file.Valid() && finished == start + Retried(old(file.script), |line| - start) <= |line|
    ensures file.taken == old(file.taken) + line[start..finished] && (NoZero(old(file.script)) ==> NoZero(file.script))
  {
    ghost var total, before := start + Retried(file.script, |line| - start), file.taken;
    RetriedBound(file.script, |line| - start);
    finished := start;
    var remained := |line| - finished;
    while remained > 0
      invariant start <= finished && 0 <= remained && finished + remained == |line| && file.Valid()
      invariant finished + Retried(file.script, remained) == total
      invariant file.taken == before + line[start..finished] && (NoZero(old(file.script)) ==> NoZero(file.script))
    {
      RetriedOnce(file.script, remained);
      AfterKeepsNoZero(file.script);
      var newFinished := WriteMore(file, line, start, finished);
      if newFinished == 0 { break; }
      finished := finished + newFinished;
      remained := |line| - finished;
    }
  }

  /** AppendUtil::append. */
  method AppendAll(file: Stream, line: string)
    requires file.Valid()
    modifies file`taken, file`script
    ensures file.Valid() && Finished(old(file.script), |line|) <= |line|
    ensures file.taken == old(file.taken) + line[..Finished(old(file.script), |line|)]
    ensures NoZero(old(file.script)) ==> NoZero(file.script)
  {
    ghost var before := file.taken;
    var start := file.Write(line);
    AfterKeepsNoZero(old(file.script));
    var finished := RetryRest(file, line, start);
    assert before + line[..start] + line[start..finished] == before + line[..finished];
  }

  /** AppendLog: every numAppend-th append flushes. */
  class AppendLog {
    const file: Stream
    const numAppend: nat
    var count: nat
    ghost var unflushed: nat   // appends since the last flush

    ghost predicate Valid()
      reads this, file
    {
      file.Valid() && (count < numAppend || count == 0) && count == unflushed
      && (unflushed == 0 ==> file.flushed == |file.taken|)
    }

    constructor (script: seq<nat>, numAppend: nat)
      ensures Valid() && fresh(file) && this.numAppend == numAppend && file.script == script && file.taken == ""
    {
      file := new Stream(script);
      this.numAppend := numAppend;
      count, unflushed := 0, 0;
    }

    method Append(line: string)
      requires Valid()
      modifies this, file
      ensures Valid()
      ensures Finished(old(file.script), |line|) <= |line|
      ensures file.taken == old(file.taken) + line[..Finished(old(file.script), |line|)]
      ensures NoZero(old(file.script)) ==> NoZero(file.script)
      ensures unflushed == if old(unflushed) + 1 >= numAppend then 0 else old(unflushed) + 1
      ensures file.flushed == if unflushed == 0 then |file.taken| else old(file.flushed)
    {
      AppendAll(file, line);
      count, unflushed := count + 1, unflushed + 1;
      if count >= numAppend {
        count, unflushed := 0, 0;
        file.Flush();
      }
    }

    /** A flush asked for from outside leaves count_ alone. */
    method Flush()
      requires file.Valid()
      modifies file`flushed
      ensures file.Valid() && file.flushed == |file.taken|
    {
      file.Flush();
    }
  }
}
