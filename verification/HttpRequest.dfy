/** The request side of HttpData: the header parser over indices into the input buffer, the
    stage machine of handle_read, and what a whole request becomes. */
module HttpRequest {
  import opened Prelude
  import opened HttpHeaders
  import opened HttpResume
  import opened HttpUri
  import Connections

  /** The locals of parse_Headers. */
  datatype Cursor = Cursor(state: ParseState, keyStart: int, keyEnd: int, valueStart: int, valueEnd: int, readCur: nat)

  /** The characters from index from to index to; index -1 is the character in front. */
  predicate IsSlice(front: char, s: string, from: int, to: int, part: string) {
    -1 <= from <= to <= |s| && Slice(front, s, from, to) == part
  }

  function Slice(front: char, s: string, from: int, to: int): string
    requires -1 <= from <= to <= |s|
  {
    ([front] + s)[from + 1..to + 1]
  }

  /** The indices mark the key and value the scan is at, when i characters are read. */
  predicate Marks(c: Cursor, p: Progress, front: char, s: string, i: nat) {
    && c.state == StateOf(p) && c.readCur <= |s|
    && match p
       case InKey(_, _, key) => key != "" && IsSlice(front, s, c.keyStart, i, key)
       case AfterKey(_, _, key) => IsSlice(front, s, c.keyStart, c.keyEnd, key)
       case AfterColon(_, _, key) => IsSlice(front, s, c.keyStart, c.keyEnd, key)
       case InValue(_, _, key, value) =>
         IsSlice(front, s, c.keyStart, c.keyEnd, key) && value != "" && IsSlice(front, s, c.valueStart, i, value)
       case AfterValue(_, _, key, value) =>
         IsSlice(front, s, c.keyStart, c.keyEnd, key) && IsSlice(front, s, c.valueStart, c.valueEnd, value)
       case _ => true
  }

  /** The last progress before a scan fails, or its end. */
  function LastGood(p: Progress, s: string): Progress
    decreases |s|
  {
    if s == "" || Step(p, s[0]).None? then p else LastGood(Step(p, s[0]).value, s[1..])
  }

  lemma {:induction false} LastGoodIs(p: Progress, s: string, i: nat, q: Progress)
    requires i < |s| && Scan(p, s[..i]) == Some(q) && Step(q, s[i]).None?
    ensures Scan(p, s).None? && LastGood(p, s) == q
    decreases |s|
  {
    if i > 0 {
      assert s[..i][1..] == s[1..][..i - 1];
      LastGoodIs(Step(p, s[0]).value, s[1..], i - 1, q);
    }
  }

  lemma ScanSnoc(start: Progress, s: string, i: nat, p: Progress)
    requires i < |s| && Scan(start, s[..i]) == Some(p)
    ensures Scan(start, s[..i + 1]) == Step(p, s[i])
  {
    assert s[..i + 1] == s[..i] + [s[i]];
    ScanConcat(start, s[..i], [s[i]]);
    ScanOne(p, s[i]);
  }

  lemma SliceGrows(front: char, s: string, from: int, i: nat, part: string)
    requires i < |s| && IsSlice(front, s, from, i, part)
    ensures IsSlice(front, s, from, i + 1, part + [s[i]])
  {
    assert ([front] + s)[i + 1] == s[i];
  }

  lemma SliceBegins(front: char, s: string, i: nat)
    requires i < |s|
    ensures IsSlice(front, s, i, i + 1, [s[i]])
  {
    assert ([front] + s)[i + 1] == s[i];
  }

  lemma {:induction false} LastGoodEnd(p: Progress, s: string)
    ensures Scan(p, s).Some? ==> LastGood(p, s) == Scan(p, s).value
    decreases |s|
  {
    if s != "" && Step(p, s[0]).Some? { LastGoodEnd(Step(p, s[0]).value, s[1..]); }
  }

  lemma TurnLines(p: Progress, c: char)
    requires Step(p, c).Some?
    ensures LinesOf(Step(p, c).value)
         == if p.AfterValue? then p.lines + [Line(p.key, p.value)] else LinesOf(p)
  {
  }

  lemma LineEnds(start: Progress, p: Progress, s: string, i: nat)
    requires i < |s| && p.AfterValue? && Text(p) == Text(start) + s[..i] && Step(p, s[i]).Some?
    ensures var q := Step(p, s[i]).value; q.AfterLine? && q.lines != [] && ReadFrom(start, q) == i
  {
    var q := Step(p, s[i]).value;
    assert |Text(q)| == |Text(start)| + i + 1 by { StepText(p, s[i]); }
  }

  lemma SameLines(p: Progress, c: char)
    requires Step(p, c).Some? && !p.Leading? && !p.AfterValue?
    ensures var q := Step(p, c).value; !q.Leading? && !q.AfterLine? && q.lead == p.lead && q.lines == p.lines
  {
  }

  lemma KeyBegins(start: Progress, p: Progress, s: string, i: nat)
    requires i < |s| && p.Leading? && Text(p) == s[..i] && Step(p, s[i]).Some?
    ensures var q := Step(p, s[i]).value;
            (q.InKey? || q.Leading?) && ReadFrom(start, q) == if q.InKey? then i else ReadFrom(start, p)
  {
  }

  lemma TurnReadFrom(start: Progress, p: Progress, s: string, i: nat)
    requires i < |s| && !p.Complete? && Text(p) == Text(start) + s[..i] && (p.Leading? ==> Text(start) == "")
    requires Step(p, s[i]).Some?
    ensures var q := Step(p, s[i]).value;
            !q.Complete? ==>
              ReadFrom(start, q) == if (p.Leading? && q.InKey?) || q.AfterLine? then i else ReadFrom(start, p)
  {
    if p.Leading? {
      assert Text(start) + s[..i] == s[..i];
      KeyBegins(start, p, s, i);
    } else if p.AfterValue? {
      LineEnds(start, p, s, i);
    } else {
      SameLines(p, s[i]);
    }
  }

  lemma TurnStores(headers: map<string, string>, p: Progress, c: char)
    requires Step(p, c).Some?
    ensures var now := Stored(headers, LinesOf(p));
            Stored(headers, LinesOf(Step(p, c).value)) == if p.AfterValue? then now[p.key := p.value] else now
  {
    if p.AfterValue? {
      assert (p.lines + [Line(p.key, p.value)])[..|p.lines|] == p.lines;
    }
  }

  lemma ScanPrefix(state: ParseState, front: char, s: string, i: nat, p: Progress)
    requires i <= |s| && Scan(Resumed(state, front), s[..i]) == Some(p)
    ensures !p.Complete? ==> Text(p) == Text(Resumed(state, front)) + s[..i]
    ensures p.Leading? ==> Text(Resumed(state, front)) == ""
  {
    ScanReads(Resumed(state, front), s[..i]);
  }

  lemma ScanRest(start: Progress, s: string, i: nat, p: Progress)
    requires i <= |s| && Scan(start, s[..i]) == Some(p) && (i < |s| ==> p.Complete?)
    ensures Scan(start, s) == Some(p) && LastGood(start, s) == p
  {
    assert s == s[..i] + s[i..];
    ScanConcat(start, s[..i], s[i..]);
    if p.Complete? { ScanFinal(p, s[i..]); }
    LastGoodEnd(start, s);
  }

  /** What SUCCESS leaves of the buffer when the block ends after n characters. */
  function Behind(s: string, n: int): string {
    if |s| > n >= 0 then s[n + 1..] else ""
  }

  // ---------------------------------------------------------------- the stages of handle_read

  datatype Stage = AtUri | AtHeaders | AtBody | AtAnalysis | AtFinish

  datatype Parsed = Parsed(request: Request, headers: map<string, string>, stage: Stage, parse: ParseState)

  /** How the stages end for now: more input is needed, the request is answered with 400, it
      is handed to analyze_request, or stoi has thrown. */
  datatype Outcome = Wait | BadRequest | Analyse | Threw

  /** headers_ and the buffer after a call of parse_Headers that began with start. */
  function HeadersAfter(headers: map<string, string>, start: Progress, s: string): map<string, string> {
    Stored(headers, LinesOf(LastGood(start, s)))
  }

  /** What a call that began with start and stopped at p leaves of the buffer. */
  function Left(start: Progress, p: Progress, verdict: Verdict, s: string): string {
    match verdict
    case Error => s
    case Again => if 0 <= ReadFrom(start, p) <= |s| then s[ReadFrom(start, p)..] else ""
    case Success => Behind(s, |Text(p)| - |Text(start)|)
  }

  function BufferAfter(start: Progress, s: string): string {
    Left(start, LastGood(start, s), VerdictOf(Scan(start, s)), s)
  }

  const CONTENT_LENGTH: string := "Content-length"

  /** The body stage; the length is an int compared with a size_t, and None is a stoi that
      throws. */
  function BodyChain(d: Parsed, stoi: string -> Option<int>): (Parsed, Outcome) {
    if d.stage.AtBody? then
      if CONTENT_LENGTH !in d.headers then (d, BadRequest)
      else
        match stoi(d.headers[CONTENT_LENGTH])
        case None => (d, Threw)
        case Some(n) => if |d.request.buffer| < U64(n) then (d, Wait) else (d.(stage := AtAnalysis), Analyse)
    else (d, if d.stage.AtAnalysis? then Analyse else Wait)
  }

  function HeaderChain(d: Parsed, front: char, stoi: string -> Option<int>): (Parsed, Outcome) {
    if d.stage.AtHeaders? then
      var s := d.request.buffer;
      var start := Resumed(d.parse, front);
      var e := d.(headers := HeadersAfter(d.headers, start, s), request := d.request.(buffer := BufferAfter(start, s)),
                  parse := StateOf(LastGood(start, s)));
      match VerdictOf(Scan(start, s))
      case Again => (e, Wait)
      case Error => (e, BadRequest)
      case Success => BodyChain(e.(stage := if e.request.verb.Post? then AtBody else AtAnalysis), stoi)
    else BodyChain(d, stoi)
  }

  /** The stages on what is in the buffer; front is what memory holds in front of it. */
  function Chain(d: Parsed, front: char, stoi: string -> Option<int>): (Parsed, Outcome)
    requires |d.request.buffer| < MAX_BUFFER
  {
    if d.stage.AtUri? then
      var (verdict, r) := ParseUri(d.request);
      match verdict
      case UriAgain => (d.(request := r), Wait)
      case UriError => (d.(request := r.(buffer := "")), BadRequest)
      case UriSuccess => HeaderChain(d.(request := r, stage := AtHeaders), front, stoi)
    else HeaderChain(d, front, stoi)
  }

  function Received(d: Parsed, received: string): Parsed {
    d.(request := d.request.(buffer := d.request.buffer + received))
  }

  /** The state once analyze_request, if it was reached, has succeeded or failed. */
  function Finished(e: Parsed, outcome: Outcome, analysed: bool): Parsed {
    if outcome == Analyse && analysed then e.(stage := AtFinish) else e
  }

  lemma HeadersNeverFinish(d: Parsed, front: char, stoi: string -> Option<int>)
    requires !d.stage.AtFinish?
    ensures !HeaderChain(d, front, stoi).0.stage.AtFinish?
  {
  }

  lemma NeverFinishes(d: Parsed, front: char, stoi: string -> Option<int>)
    requires |d.request.buffer| < MAX_BUFFER && !d.stage.AtFinish?
    ensures !Chain(d, front, stoi).0.stage.AtFinish?
  {
    var r := ParseUri(d.request).1;
    HeadersNeverFinish(d.(request := r, stage := AtHeaders), front, stoi);
    HeadersNeverFinish(d, front, stoi);
  }

  /** reset(), as far as the request goes. */
  function Cleared(d: Parsed): Parsed {
    Parsed(Request("", d.request.verb, d.request.version, ""), map[], AtUri, HStart)
  }

  /** A line without GET, POST or HEAD in it, or without a version, is answered with 400; the
      buffer is emptied and the stage stays. */
  lemma LineRefused(d: Parsed, front: char, stoi: string -> Option<int>)
    requires |d.request.buffer| < MAX_BUFFER && d.stage.AtUri?
    ensures ParseUri(d.request).0 == UriError ==>
              var (e, outcome) := Chain(d, front, stoi);
              outcome == BadRequest && e.request.buffer == "" && e.stage.AtUri? && e.headers == d.headers
    ensures forall line, rest :: IsCut(d.request.buffer, line, rest) && IsVerb(line, None) ==>
              Chain(d, front, stoi).1 == BadRequest
  {
    var line, verb, at, slash, space, second := AnyBytes(d.request);
    forall line', rest | IsCut(d.request.buffer, line', rest) && IsVerb(line', None)
      ensures Chain(d, front, stoi).1 == BadRequest
    {
      SameCut(d.request.buffer, line, ParseUri(d.request).1.buffer, line', rest);
    }
  }

  // ---------------------------------------------------------------- whole requests

  /** A request as a client prints it. */
  function PrintRequest(m: Method, target: string, v: Version, lines: seq<Line>, body: string): string {
    RequestLine(m, target, v) + "\r" + ("\n" + PrintAll(lines) + "\r\n" + body)
  }

  lemma BehindIs(head: string, body: string)
    ensures Behind(head + body, |head|) == if body == "" then "" else body[1..]
  {
    if body != "" { assert (head + body)[|head| + 1..] == body[1..]; }
  }

  /** A printed block is read back whole; one character of what follows it is gone. */
  lemma HeadersRead(lines: seq<Line>, body: string, s: string)
    requires AreLines(lines) && lines != [] && s == Block("\n", lines) + body
    ensures Scan(Begin, s) == Some(Complete("\n", lines)) && LastGood(Begin, s) == Complete("\n", lines)
    ensures BufferAfter(Begin, s) == if body == "" then "" else body[1..]
  {
    assert Scan(Begin, s) == Some(Complete("\n", lines)) by { PrintThenParse("\n", lines, body); }
    LastGoodEnd(Begin, s);
    BehindIs(Block("\n", lines), body);
  }

  lemma ChainAfterLine(d: Parsed, r: Request, front: char, stoi: string -> Option<int>)
    requires |d.request.buffer| < MAX_BUFFER && d.stage.AtUri?
    ensures ParseUri(d.request) == (UriSuccess, r) ==>
              Chain(d, front, stoi) == HeaderChain(d.(request := r, stage := AtHeaders), front, stoi)
  {
  }

  /** A call of parse_Headers that succeeds, inside the stages. */
  lemma HeadersSucceed(d: Parsed, start: Progress, lines: seq<Line>, left: string, front: char,
                       stoi: string -> Option<int>)
    requires d.stage.AtHeaders? && start == Resumed(d.parse, front)
    ensures var s := d.request.buffer;
            LastGood(start, s).Complete? && Scan(start, s) == Some(LastGood(start, s))
            && LinesOf(LastGood(start, s)) == lines && BufferAfter(start, s) == left ==>
              HeaderChain(d, front, stoi)
              == BodyChain(Parsed(d.request.(buffer := left), Stored(d.headers, lines),
                                  if d.request.verb.Post? then AtBody else AtAnalysis, HEndLf), stoi)
  {
  }

  lemma HeadersDone(d: Parsed, lines: seq<Line>, body: string, front: char, stoi: string -> Option<int>)
    requires AreLines(lines) && lines != [] && d.stage.AtHeaders? && d.parse.HStart?
    requires d.request.buffer == Block("\n", lines) + body
    ensures var left := if body == "" then "" else body[1..];
            HeaderChain(d, front, stoi)
            == BodyChain(Parsed(d.request.(buffer := left), Stored(d.headers, lines),
                                if d.request.verb.Post? then AtBody else AtAnalysis, HEndLf), stoi)
  {
    HeadersRead(lines, body, d.request.buffer);
    HeadersSucceed(d, Begin, lines, if body == "" then "" else body[1..], front, stoi);
  }

  /** A whole request read at once: method, path up to the question mark, version and headers
      come back, and the body stage is entered exactly for POST. One character of the body is
      lost to the header parser. */
  lemma WholeRequest(m: Method, target: string, v: Version, lines: seq<Line>, body: string,
                     front: char, stoi: string -> Option<int>, d: Parsed)
    requires IsTarget(target) && AreLines(lines) && lines != []
    requires |PrintRequest(m, target, v, lines, body)| < MAX_BUFFER && !EarlierName(m, RequestLine(m, target, v))
    requires d.stage.AtUri? && d.parse.HStart? && d.request.buffer == PrintRequest(m, target, v, lines, body)
    ensures var left := if body == "" then "" else body[1..];
            var read := Request(left, m, v, FileOf(target));
            var stage := if m.Post? then AtBody else AtAnalysis;
            Chain(d, front, stoi) == BodyChain(Parsed(read, Stored(d.headers, lines), stage, HEndLf), stoi)
  {
    var s := "\n" + PrintAll(lines) + "\r\n" + body;
    var r := Request(s, m, v, FileOf(target));
    assert ParseUri(d.request) == (UriSuccess, r) by { LineRoundTrip(m, target, v, s, d.request); }
    ChainAfterLine(d, r, front, stoi);
    HeadersDone(d.(request := r, stage := AtHeaders), lines, body, front, stoi);
  }

  /** stoi gives an int or throws. */
  ghost predicate IsStoi(stoi: string -> Option<int>) {
    forall s :: stoi(s).Some? ==> -0x8000_0000 <= stoi(s).value <= 0x7FFF_FFFF
  }

  /** The comparison of a size with an int: a negative length is a huge one. */
  lemma LengthCompared(size: nat, n: int)
    requires size < MAX_BUFFER && -0x8000_0000 <= n <= 0x7FFF_FFFF
    ensures size < U64(n) <==> n < 0 || size < n
  {
  }

  /** A GET or HEAD request goes on to its analysis; a POST does exactly when its
      Content-length is not negative and at most one less than the body that came with the
      head (or 0), so a body of the announced length leaves it waiting. */
  lemma RequestOutcome(m: Method, target: string, v: Version, lines: seq<Line>, body: string,
                       front: char, stoi: string -> Option<int>, d: Parsed)
    requires IsTarget(target) && AreLines(lines) && lines != []
    requires |PrintRequest(m, target, v, lines, body)| < MAX_BUFFER && !EarlierName(m, RequestLine(m, target, v))
    requires d.stage.AtUri? && d.parse.HStart? && d.request.buffer == PrintRequest(m, target, v, lines, body)
    requires IsStoi(stoi)
    ensures !m.Post? ==> Chain(d, front, stoi).1 == Analyse
    ensures var h := Stored(d.headers, lines);
            m.Post? ==> if CONTENT_LENGTH !in h then Chain(d, front, stoi).1 == BadRequest
                        else match stoi(h[CONTENT_LENGTH])
                             case None => Chain(d, front, stoi).1 == Threw
                             case Some(n) =>
                               (Chain(d, front, stoi).1 == Analyse <==> 0 <= n && (n < |body| || n == 0))
                               && (Chain(d, front, stoi).1 == Wait <==> n < 0 || (n > 0 && n >= |body|))
  {
    var left := if body == "" then "" else body[1..];
    var stage := if m.Post? then AtBody else AtAnalysis;
    var e := Parsed(Request(left, m, v, FileOf(target)), Stored(d.headers, lines), stage, HEndLf);
    assert Chain(d, front, stoi) == BodyChain(e, stoi) by { WholeRequest(m, target, v, lines, body, front, stoi, d); }
    if m.Post? && CONTENT_LENGTH in e.headers && stoi(e.headers[CONTENT_LENGTH]).Some? {
      LengthCompared(|left|, stoi(e.headers[CONTENT_LENGTH]).value);
    }
  }

  // ---------------------------------------------------------------- a body in several reads

  /** What one read delivers, and what memory then holds in front of the buffer. */
  datatype Read = Read(text: string, front: char)

  function Joined(arrived: seq<Read>): string {
    if arrived == [] then "" else arrived[0].text + Joined(arrived[1..])
  }

  /** handle_read after handle_read, each with what one read delivers, until the request is
      decided. */
  function Served(d: Parsed, arrived: seq<Read>, stoi: string -> Option<int>): (Parsed, Outcome)
    requires |d.request.buffer + Joined(arrived)| < MAX_BUFFER
    decreases |arrived|
  {
    if arrived == [] then (d, Wait) else
    var (after, outcome) := Chain(Received(d, arrived[0].text), arrived[0].front, stoi);
    ChainShrinks(Received(d, arrived[0].text), arrived[0].front, stoi);
    if outcome == Wait then Served(after, arrived[1..], stoi) else (after, outcome)
  }

  lemma BufferShrinks(start: Progress, s: string)
    ensures |BufferAfter(start, s)| <= |s|
  {
  }

  lemma HeaderChainShrinks(d: Parsed, front: char, stoi: string -> Option<int>)
    ensures |HeaderChain(d, front, stoi).0.request.buffer| <= |d.request.buffer|
  {
    BufferShrinks(Resumed(d.parse, front), d.request.buffer);
  }

  lemma ChainShrinks(d: Parsed, front: char, stoi: string -> Option<int>)
    requires |d.request.buffer| < MAX_BUFFER
    ensures |Chain(d, front, stoi).0.request.buffer| <= |d.request.buffer|
  {
    if d.stage.AtUri? {
      UriShrinks(d.request);
      HeaderChainShrinks(d.(request := ParseUri(d.request).1, stage := AtHeaders), front, stoi);
    } else {
      HeaderChainShrinks(d, front, stoi);
    }
  }

  lemma UriShrinks(r: Request)
    requires |r.buffer| < MAX_BUFFER
    ensures |ParseUri(r).1.buffer| <= |r.buffer|
  {
  }

  /** In the body stage the reads add up: the request is decided once the announced length
      has come together. */
  lemma {:induction false} BodyServed(d: Parsed, arrived: seq<Read>, stoi: string -> Option<int>)
    requires d.stage.AtBody? && CONTENT_LENGTH in d.headers && IsStoi(stoi) && arrived != []
    requires |d.request.buffer + Joined(arrived)| < MAX_BUFFER
    ensures match stoi(d.headers[CONTENT_LENGTH])
            case None => Served(d, arrived, stoi).1 == Threw
            case Some(n) =>
              Served(d, arrived, stoi).1 == if 0 <= n <= |d.request.buffer| + |Joined(arrived)| then Analyse else Wait
    decreases |arrived|
  {
    var e := Received(d, arrived[0].text);
    var size := |e.request.buffer|;
    if stoi(d.headers[CONTENT_LENGTH]).Some? {
      var n := stoi(d.headers[CONTENT_LENGTH]).value;
      LengthCompared(size, n);
      if n < 0 || size < n {
        assert Chain(e, arrived[0].front, stoi) == (e, Wait);
        if arrived[1..] == [] {
          assert Joined(arrived[1..]) == "";
        } else {
          BodyServed(e, arrived[1..], stoi);
        }
      }
    }
  }

  /** What the first read leaves of the body, and the reads behind it, decide together. */
  lemma ServedFrom(d: Parsed, after: Parsed, arrived: seq<Read>, stoi: string -> Option<int>)
    requires arrived != [] && |d.request.buffer + Joined(arrived)| < MAX_BUFFER && IsStoi(stoi)
    requires after.stage.AtBody? && CONTENT_LENGTH in after.headers
    requires |after.request.buffer| <= |d.request.buffer + arrived[0].text|
    ensures Chain(Received(d, arrived[0].text), arrived[0].front, stoi) == BodyChain(after, stoi) ==>
              match stoi(after.headers[CONTENT_LENGTH])
              case None => Served(d, arrived, stoi).1 == Threw
              case Some(n) =>
                Served(d, arrived, stoi).1
                == if 0 <= n <= |after.request.buffer| + |Joined(arrived[1..])| then Analyse else Wait
  {
    var step := Chain(Received(d, arrived[0].text), arrived[0].front, stoi);
    if step == BodyChain(after, stoi) && stoi(after.headers[CONTENT_LENGTH]).Some? {
      var n := stoi(after.headers[CONTENT_LENGTH]).value;
      LengthCompared(|after.request.buffer|, n);
      if n < 0 || |after.request.buffer| < n {
        assert BodyChain(after, stoi) == (after, Wait);
        if arrived[1..] == [] {
          assert Joined(arrived[1..]) == "";
        } else {
          BodyServed(after, arrived[1..], stoi);
        }
      }
    }
  }

  /** A POST whose head arrives in one read, with the first part of the body behind it, and
      the rest of the body in any number of later reads: it gets to its analysis exactly when
      the announced length is not negative and at most the length of the body, less one if
      any of the body came with the head. So a body of the announced length gets there exactly
      when none of it did, or it is empty. */
  lemma PostServed(target: string, v: Version, lines: seq<Line>, first: string, rest: seq<Read>,
                   front: char, stoi: string -> Option<int>, d: Parsed)
    requires IsTarget(target) && AreLines(lines) && lines != []
    requires |PrintRequest(Post, target, v, lines, first)| + |Joined(rest)| < MAX_BUFFER
    requires !EarlierName(Post, RequestLine(Post, target, v))
    requires d.stage.AtUri? && d.parse.HStart? && d.request.buffer == ""
    requires IsStoi(stoi) && CONTENT_LENGTH in Stored(d.headers, lines)
    ensures var arrived := [Read(PrintRequest(Post, target, v, lines, first), front)] + rest;
            && |d.request.buffer + Joined(arrived)| < MAX_BUFFER
            && match stoi(Stored(d.headers, lines)[CONTENT_LENGTH])
               case None => Served(d, arrived, stoi).1 == Threw
               case Some(n) =>
                 Served(d, arrived, stoi).1
                 == if 0 <= n <= |first| + |Joined(rest)| - (if first == "" then 0 else 1) then Analyse else Wait
  {
    var head := PrintRequest(Post, target, v, lines, first);
    var arrived := [Read(head, front)] + rest;
    assert arrived[1..] == rest && d.request.buffer + head == head;
    var left := if first == "" then "" else first[1..];
    var after := Parsed(Request(left, Post, v, FileOf(target)), Stored(d.headers, lines), AtBody, HEndLf);
    assert Chain(Received(d, head), front, stoi) == BodyChain(after, stoi) by {
      WholeRequest(Post, target, v, lines, first, front, stoi, Received(d, head));
    }
    LeftIsShort(target, v, lines, first);
    ServedFrom(d, after, arrived, stoi);
  }

  lemma LeftIsShort(target: string, v: Version, lines: seq<Line>, first: string)
    ensures |first| <= |PrintRequest(Post, target, v, lines, first)|
  {
  }

  /** One and the same POST with a body of the announced length: it gets to its analysis when
      head and body come in two reads, and is left waiting when they come in one. */
  lemma OneReadStalls(target: string, v: Version, lines: seq<Line>, body: string, front: char,
                      front2: char, stoi: string -> Option<int>, d: Parsed)
    requires IsTarget(target) && AreLines(lines) && lines != [] && body != ""
    requires |PrintRequest(Post, target, v, lines, body)| < MAX_BUFFER
    requires !EarlierName(Post, RequestLine(Post, target, v))
    requires d.stage.AtUri? && d.parse.HStart? && d.request.buffer == ""
    requires IsStoi(stoi) && CONTENT_LENGTH in Stored(d.headers, lines)
    requires stoi(Stored(d.headers, lines)[CONTENT_LENGTH]) == Some(|body|)
    ensures var one := [Read(PrintRequest(Post, target, v, lines, body), front)];
            var two := [Read(PrintRequest(Post, target, v, lines, ""), front), Read(body, front2)];
            && |d.request.buffer + Joined(one)| < MAX_BUFFER && |d.request.buffer + Joined(two)| < MAX_BUFFER
            && Served(d, one, stoi).1 == Wait && Served(d, two, stoi).1 == Analyse
  {
    var whole, head := PrintRequest(Post, target, v, lines, body), PrintRequest(Post, target, v, lines, "");
    assert [Read(whole, front)] + [] == [Read(whole, front)];
    assert [Read(head, front)] + [Read(body, front2)] == [Read(head, front), Read(body, front2)];
    assert Joined([Read(body, front2)]) == body + Joined([]);
    PostServed(target, v, lines, body, [], front, stoi, d);
    PostServed(target, v, lines, "", [Read(body, front2)], front, stoi, d);
  }

  // ---------------------------------------------------------------- a head in two reads

  lemma GluedLeft(s: string, from: nat, k: nat)
    requires from <= k <= |s|
    ensures s[from..k] + s[k..] == s[from..]
  {
  }

  /** The first read of a head that is cut at k: the complete lines are stored, and the rest
      waits with the state of the scan. */
  lemma FirstPart(lines: seq<Line>, body: string, k: nat, p: Progress, front: char, stoi: string -> Option<int>,
                  d: Parsed)
    requires IsBlock("\n", lines) && CutAt(p, lines, body, k) && 0 <= ReadFrom(Begin, p) <= k
    requires d.stage.AtHeaders? && d.parse.HStart? && d.request.buffer == (Block("\n", lines) + body)[..k]
    ensures HeaderChain(d, front, stoi)
         == (Parsed(d.request.(buffer := d.request.buffer[ReadFrom(Begin, p)..]), Stored(d.headers, LinesOf(p)),
                    AtHeaders, StateOf(p)), Wait)
  {
    LastGoodEnd(Begin, d.request.buffer);
  }

  /** What the header parser leaves of the body when the head was cut. */
  function LeftAfterCut(state: ParseState, body: string): string {
    if state.HEndCr? then "\n" + body else if body == "" then "" else body[1..]
  }

  lemma BehindUnread(first: bool, later: seq<Line>, body: string)
    ensures Behind(Unread(first, later, body), |Unread(first, later, "")|) == if body == "" then "" else body[1..]
  {
    var head := Unread(first, later, "");
    assert Unread(first, later, body) == head + body by {
      Regroup(PrintAll(later), "\r\n", body);
      Regroup(PrintAll(later), "\r\n", "");
      Regroup(if first then "" else "\n", PrintAll(later) + "\r\n", body);
    }
    BehindIs(head, body);
  }

  lemma LeftIs(state: ParseState, first: bool, later: seq<Line>, front: char, body: string, told: seq<Line>)
    requires !state.HStart? && !state.HEndLf? && (state.HLf? ==> !first)
    requires state.HEndCr? ==> !first && later == []
    requires Retold(state, first, later, front) == Some(told)
    ensures Behind(Unread(first, later, body), |Block("", told)| - |Text(Resumed(state, front))|)
         == LeftAfterCut(state, body)
  {
    ToldSize(state, first, later, front, told);
    if state.HEndCr? {
      assert Unread(first, later, body) == "\n\r\n" + body;
    } else {
      BehindUnread(first, later, body);
    }
  }

  lemma LeftAtStart(lines: seq<Line>, body: string)
    requires AreLines(lines) && lines != []
    ensures Left(Begin, Complete("\n", lines), Success, Block("\n", lines) + body) == LeftAfterCut(HStart, body)
  {
    HeadersRead(lines, body, Block("\n", lines) + body);
  }

  lemma LeftSuccess(start: Progress, told: seq<Line>, s: string)
    ensures Left(start, Complete("", told), Success, s) == Behind(s, |Block("", told)| - |Text(start)|)
  {
  }

  lemma LeftNotAtStart(state: ParseState, first: bool, later: seq<Line>, front: char, body: string, told: seq<Line>)
    requires !state.HStart? && !state.HEndLf? && (state.HLf? ==> !first)
    requires state.HEndCr? ==> !first && later == []
    requires Retold(state, first, later, front) == Some(told)
    ensures Left(Resumed(state, front), Complete("", told), Success, Unread(first, later, body))
         == LeftAfterCut(state, body)
  {
    LeftIs(state, first, later, front, body, told);
    LeftSuccess(Resumed(state, front), told, Unread(first, later, body));
  }

  /** What the second call leaves of the buffer. */
  lemma LeftBehind(lines: seq<Line>, body: string, k: nat, front: char, p: Progress, told: seq<Line>)
    requires AreLines(lines) && lines != [] && CutAt(p, lines, body, k) && 0 <= ReadFrom(Begin, p) <= k
    requires Retold(StateOf(p), LinesOf(p) == [], Later(p, lines), front) == Some(told)
    ensures Left(Resumed(StateOf(p), front), Complete(if p.Leading? then "\n" else "", told), Success,
                 (Block("\n", lines) + body)[ReadFrom(Begin, p)..])
         == LeftAfterCut(StateOf(p), body)
  {
    if p.Leading? {
      LeftAtStart(lines, body);
    } else {
      CutState(p, lines, body, k);
      UnreadIs(p, lines, body, k);
      LeftNotAtStart(StateOf(p), p.lines == [], lines[|p.lines|..], front, body, told);
    }
  }

  lemma HeadersRefuse(d: Parsed, front: char, stoi: string -> Option<int>)
    requires d.stage.AtHeaders?
    ensures Scan(Resumed(d.parse, front), d.request.buffer) == None ==> HeaderChain(d, front, stoi).1 == BadRequest
  {
  }

  /** The second read, on what the first left. */
  lemma SecondPart(lines: seq<Line>, body: string, k: nat, p: Progress, front: char, stoi: string -> Option<int>,
                   d: Parsed)
    requires AreLines(lines) && ArePlain(lines) && lines != [] && CutAt(p, lines, body, k)
    requires 0 <= ReadFrom(Begin, p) <= k && d.stage.AtHeaders? && d.parse == StateOf(p)
    requires d.request.buffer == (Block("\n", lines) + body)[ReadFrom(Begin, p)..]
    ensures match Retold(StateOf(p), LinesOf(p) == [], Later(p, lines), front)
            case None => HeaderChain(d, front, stoi).1 == BadRequest
            case Some(more) =>
              HeaderChain(d, front, stoi)
              == BodyChain(Parsed(d.request.(buffer := LeftAfterCut(StateOf(p), body)), Stored(d.headers, more),
                                  if d.request.verb.Post? then AtBody else AtAnalysis, HEndLf), stoi)
  {
    var start, s := Resumed(d.parse, front), d.request.buffer;
    SplitBlock(lines, body, k, front, p);
    match Retold(StateOf(p), LinesOf(p) == [], Later(p, lines), front)
    case None => HeadersRefuse(d, front, stoi);
    case Some(more) =>
      LastGoodEnd(start, s);
      LeftBehind(lines, body, k, front, p, more);
      HeadersSucceed(d, start, more, LeftAfterCut(StateOf(p), body), front, stoi);
  }

  lemma JoinedTwo(a: Read, b: Read)
    ensures Joined([a, b]) == a.text + b.text
  {
    assert [a, b][1..] == [b] && [b][1..] == [] && Joined([]) == "";
    assert Joined([b]) == b.text + "";
  }

  lemma ServedTwice(d: Parsed, a: Read, b: Read, stoi: string -> Option<int>, after: Parsed)
    requires |d.request.buffer + Joined([a, b])| < MAX_BUFFER && |d.request.buffer + a.text| < MAX_BUFFER
    requires Chain(Received(d, a.text), a.front, stoi) == (after, Wait)
    requires |after.request.buffer + b.text| < MAX_BUFFER
    ensures Served(d, [a, b], stoi) == Chain(Received(after, b.text), b.front, stoi)
  {
    assert [a, b][1..] == [b] && [b][1..] == [];
    ChainShrinks(Received(d, a.text), a.front, stoi);
    JoinedTwo(a, b);
    assert Joined([b]) == b.text by { assert Joined([]) == ""; assert b.text + "" == b.text; }
    var (e, outcome) := Chain(Received(after, b.text), b.front, stoi);
    assert Served(after, [b], stoi) == (e, outcome);
  }

  /** The state after the first read, waiting for the rest of the headers. */
  function AfterFirst(m: Method, target: string, v: Version, d: Parsed, s: string, k: nat, p: Progress): Parsed
    requires |target| < MAX_BUFFER && 0 <= ReadFrom(Begin, p) <= k <= |s|
  {
    var r := Request(s[ReadFrom(Begin, p)..k], m, v, FileOf(target));
    Parsed(r, Stored(d.headers, LinesOf(p)), AtHeaders, StateOf(p))
  }

  lemma FirstRead(m: Method, target: string, v: Version, lines: seq<Line>, body: string, k: nat, p: Progress,
                  front: char, stoi: string -> Option<int>, d: Parsed)
    requires IsTarget(target) && IsBlock("\n", lines) && CutAt(p, lines, body, k) && 0 <= ReadFrom(Begin, p) <= k
    requires |RequestLine(m, target, v)| + 1 + k < MAX_BUFFER && !EarlierName(m, RequestLine(m, target, v))
    requires d.stage.AtUri? && d.parse.HStart? && d.request.buffer == ""
    ensures var s := Block("\n", lines) + body;
            Chain(Received(d, RequestLine(m, target, v) + "\r" + s[..k]), front, stoi)
            == (AfterFirst(m, target, v, d, s, k, p), Wait)
  {
    var s := Block("\n", lines) + body;
    var d1 := Received(d, RequestLine(m, target, v) + "\r" + s[..k]);
    assert d1.request.buffer == RequestLine(m, target, v) + "\r" + s[..k];
    var r := Request(s[..k], m, v, FileOf(target));
    assert ParseUri(d1.request) == (UriSuccess, r) by { LineRoundTrip(m, target, v, s[..k], d1.request); }
    ChainAfterLine(d1, r, front, stoi);
    FirstPart(lines, body, k, p, front, stoi, d1.(request := r, stage := AtHeaders));
    assert s[..k][ReadFrom(Begin, p)..] == s[ReadFrom(Begin, p)..k];
  }

  lemma SecondRead(m: Method, target: string, v: Version, lines: seq<Line>, body: string, k: nat, p: Progress,
                   front: char, stoi: string -> Option<int>, d: Parsed)
    requires AreLines(lines) && ArePlain(lines) && lines != [] && CutAt(p, lines, body, k)
    requires 0 <= ReadFrom(Begin, p) <= k && |target| < MAX_BUFFER && |Block("\n", lines) + body| < MAX_BUFFER
    ensures var s := Block("\n", lines) + body;
            var rest := Received(AfterFirst(m, target, v, d, s, k, p), s[k..]);
            |rest.request.buffer| < MAX_BUFFER
            && match Retold(StateOf(p), LinesOf(p) == [], Later(p, lines), front)
               case None => Chain(rest, front, stoi).1 == BadRequest
               case Some(more) =>
                 var read := Request(LeftAfterCut(StateOf(p), body), m, v, FileOf(target));
                 Chain(rest, front, stoi)
                 == BodyChain(Parsed(read, Stored(d.headers, LinesOf(p) + more),
                                     if m.Post? then AtBody else AtAnalysis, HEndLf), stoi)
  {
    var s := Block("\n", lines) + body;
    GluedLeft(s, ReadFrom(Begin, p), k);
    SecondPart(lines, body, k, p, front, stoi, Received(AfterFirst(m, target, v, d, s, k, p), s[k..]));
    var told := Retold(StateOf(p), LinesOf(p) == [], Later(p, lines), front);
    if told.Some? { StoredConcat(d.headers, LinesOf(p), told.value); }
  }

  /** A request whose head is cut in two reads behind its request line, wherever the cut falls:
      what is stored, what is left of the body, and when it is answered with 400. */
  lemma SplitHead(m: Method, target: string, v: Version, lines: seq<Line>, body: string, k: nat, p: Progress,
                  front: char, front2: char, stoi: string -> Option<int>, d: Parsed)
    requires IsTarget(target) && AreLines(lines) && ArePlain(lines) && lines != [] && CutAt(p, lines, body, k)
    requires |PrintRequest(m, target, v, lines, body)| < MAX_BUFFER && !EarlierName(m, RequestLine(m, target, v))
    requires d.stage.AtUri? && d.parse.HStart? && d.request.buffer == ""
    ensures var s := Block("\n", lines) + body;
            var arrived := [Read(RequestLine(m, target, v) + "\r" + s[..k], front), Read(s[k..], front2)];
            && |d.request.buffer + Joined(arrived)| < MAX_BUFFER
            && match Retold(StateOf(p), LinesOf(p) == [], Later(p, lines), front2)
               case None => Served(d, arrived, stoi).1 == BadRequest
               case Some(more) =>
                 var read := Request(LeftAfterCut(StateOf(p), body), m, v, FileOf(target));
                 Served(d, arrived, stoi)
                 == BodyChain(Parsed(read, Stored(d.headers, LinesOf(p) + more),
                                     if m.Post? then AtBody else AtAnalysis, HEndLf), stoi)
  {
    var s, line := Block("\n", lines) + body, RequestLine(m, target, v) + "\r";
    var a, b := Read(line + s[..k], front), Read(s[k..], front2);
    assert 0 <= ReadFrom(Begin, p) <= k by { SplitBlock(lines, body, k, front2, p); }
    assert |line| + |s| < MAX_BUFFER by { assert |PrintRequest(m, target, v, lines, body)| == |line| + |s|; }
    JoinedTwo(a, b);
    FirstRead(m, target, v, lines, body, k, p, front, stoi, d);
    ServedTwice(d, a, b, stoi, AfterFirst(m, target, v, d, s, k, p));
    SecondRead(m, target, v, lines, body, k, p, front2, stoi, d);
  }

  /** A cut right behind a complete line. */
  lemma CutBehindLine(lines: seq<Line>, i: nat, body: string)
    requires AreLines(lines) && 0 < i < |lines|
    ensures CutAt(AfterLine("\n", lines[..i]), lines, body, 1 + |PrintAll(lines[..i])|)
  {
    var k, before := 1 + |PrintAll(lines[..i])|, lines[..i];
    var s := Block("\n", lines) + body;
    BlockInTwo(lines, i, body);
    BlockInTwo(lines, i, "");
    assert s[..k] == "\n" + PrintAll(before);
    ScansLead("", "\n");
    ScansLines("\n", before);
    ScanConcat(Begin, "\n", PrintAll(before));
    assert "" + "\n" == "\n";
    var p := Cut(lines, body, k);
    assert p == AfterLine("\n", before);
  }

  lemma LengthTold(headers: map<string, string>, lines: seq<Line>, i: nat, front: char)
    requires i < |lines| && lines[i].key == CONTENT_LENGTH && CONTENT_LENGTH !in headers
    requires forall j :: 0 <= j < |lines| && j != i ==> lines[j].key != CONTENT_LENGTH
    ensures var told := Retold(HLf, false, lines[i..], front);
            told.Some? && CONTENT_LENGTH !in Stored(headers, lines[..i] + told.value)
  {
    var told := Retold(HLf, false, lines[i..], front).value;
    var all := lines[..i] + told;
    forall j | 0 <= j < |all| ensures all[j].key != CONTENT_LENGTH {
      if j == i {
        assert all[j].key[0] == '\n';
      } else {
        assert all[j] == lines[j];
      }
    }
    NoneStored(headers, all, CONTENT_LENGTH);
  }

  lemma HeadWithoutLength(target: string, v: Version, lines: seq<Line>, body: string, k: nat, p: Progress,
                          front: char, front2: char, stoi: string -> Option<int>, d: Parsed)
    requires IsTarget(target) && AreLines(lines) && ArePlain(lines) && lines != [] && CutAt(p, lines, body, k)
    requires |PrintRequest(Post, target, v, lines, body)| < MAX_BUFFER
    requires !EarlierName(Post, RequestLine(Post, target, v))
    requires d.stage.AtUri? && d.parse.HStart? && d.request.buffer == ""
    requires var told := Retold(StateOf(p), LinesOf(p) == [], Later(p, lines), front2);
             told.Some? ==> CONTENT_LENGTH !in Stored(d.headers, LinesOf(p) + told.value)
    ensures var s := Block("\n", lines) + body;
            k <= |s| &&
            var arrived := [Read(RequestLine(Post, target, v) + "\r" + s[..k], front), Read(s[k..], front2)];
            |d.request.buffer + Joined(arrived)| < MAX_BUFFER && Served(d, arrived, stoi).1 == BadRequest
  {
    SplitHead(Post, target, v, lines, body, k, p, front, front2, stoi, d);
  }

  /** A POST whose head arrives in two reads, the second beginning with its Content-length
      line, is answered with 400: that line is stored under a key with an LF in front. */
  lemma LengthLost(target: string, v: Version, lines: seq<Line>, i: nat, body: string, k: nat, front: char,
                   front2: char, stoi: string -> Option<int>, d: Parsed)
    requires IsTarget(target) && AreLines(lines) && ArePlain(lines) && CONTENT_LENGTH !in d.headers
    requires 0 < i < |lines| && lines[i].key == CONTENT_LENGTH && k == 1 + |PrintAll(lines[..i])|
    requires forall j :: 0 <= j < |lines| && j != i ==> lines[j].key != CONTENT_LENGTH
    requires |PrintRequest(Post, target, v, lines, body)| < MAX_BUFFER
    requires !EarlierName(Post, RequestLine(Post, target, v))
    requires d.stage.AtUri? && d.parse.HStart? && d.request.buffer == ""
    ensures var s := Block("\n", lines) + body;
            k <= |s| &&
            var arrived := [Read(RequestLine(Post, target, v) + "\r" + s[..k], front), Read(s[k..], front2)];
            |d.request.buffer + Joined(arrived)| < MAX_BUFFER && Served(d, arrived, stoi).1 == BadRequest
  {
    CutBehindLine(lines, i, body);
    LengthTold(d.headers, lines, i, front2);
    HeadWithoutLength(target, v, lines, body, k, AfterLine("\n", lines[..i]), front, front2, stoi, d);
  }

  // ---------------------------------------------------------------- the connection's side of it

  /** The connection in front of a handle_read, and what that handle_read comes across, in the
      terms of the connection model; what is unsent does not matter here. */
  function ConnOf(disconnected: bool, isError: bool): Connections.Conn {
    Connections.Conn(if disconnected then Connections.Disconnected else Connections.Connected, isError, false, false,
                     NOTHING, NOTHING, None)
  }

  function ReadingOf(numRead: int, zero: bool, outcome: Outcome, analysed: bool, writeFails: bool): Connections.Reading
  {
    Connections.Reading(numRead < 0 || outcome == BadRequest || (outcome == Analyse && !analysed), numRead >= 0 && zero,
                        outcome == Analyse && analysed, false, writeFails, writeFails, false)
  }

  /** The flags the connection model sets for it: is_error_, disconnected, EPOLLIN. */
  function ConnFlags(disconnected: bool, isError: bool, numRead: int, zero: bool, outcome: Outcome, analysed: bool,
                     writeFails: bool): (bool, bool, bool) {
    var d := Connections.AfterReading(ConnOf(disconnected, isError),
                                      ReadingOf(numRead, zero, outcome, analysed, writeFails));
    (d.isError, d.status.Disconnected?, d.events.input)
  }

  lemma FlagsAgree(disconnected: bool, isError: bool, numRead: int, zero: bool, outcome: Outcome, analysed: bool,
                   writeFails: bool)
    ensures var failed := isError || (!disconnected && (numRead < 0 || zero || outcome == BadRequest
                                                        || (outcome == Analyse && !analysed) || writeFails));
            var gone := disconnected || (zero && numRead >= 0);
            ConnFlags(disconnected, isError, numRead, zero, outcome, analysed, writeFails)
            == (failed, gone, !failed && !gone && !(outcome == Analyse && analysed))
  {
  }

  class HttpData {
    var bufferIn: string
    var verb: Method
    var version: Version
    var fileName: string
    var headers: map<string, string>
    var parseState: ParseState
    var processState: Stage
    var isError: bool
    var disconnected: bool

    ghost function State(): Parsed
      reads this
    {
      Parsed(Request(bufferIn, verb, version, fileName), headers, processState, parseState)
    }

    constructor ()
      ensures State() == Parsed(Request("", Get, Http11, ""), map[], AtUri, HStart)
      ensures !isError && !disconnected
    {
      bufferIn, verb, version, fileName, headers := "", Get, Http11, "", map[];
      parseState, processState, isError, disconnected := HStart, AtUri, false, false;
    }

    /** One turn of the loop of parse_Headers; false is PARSE_HEADER_ERROR. */
    method Turn(i: nat, c: Cursor, front: char, ghost p: Progress) returns (ok: bool, next: Cursor)
      requires i < |bufferIn| && !p.Complete? && Marks(c, p, front, bufferIn, i)
      modifies this`headers
      ensures ok <==> Step(p, bufferIn[i]).Some?
      ensures ok ==> Marks(next, Step(p, bufferIn[i]).value, front, bufferIn, i + 1)
      ensures ok ==> next.readCur == if (p.Leading? && next.state == HKey) || next.state == HLf then i else c.readCur
      ensures headers == if ok && p.AfterValue? then old(headers)[p.key := p.value] else old(headers)
    {
      var ch := bufferIn[i];
      ok, next := true, c;
      match c.state
      case HStart =>
        SliceBegins(front, bufferIn, i);
        if ch != '\n' && ch != 'r' {
          next := next.(state := HKey, keyStart := i, readCur := i);
        }
      case HKey =>
        if ch == ':' {
          next := next.(state := HColon, keyEnd := i);
          ok := next.keyEnd - next.keyStart > 0;
        } else if ch == '\n' || ch == '\r' {
          ok := false;
        } else {
          SliceGrows(front, bufferIn, c.keyStart, i, p.key);
        }
      case HColon =>
        if ch == ' ' { next := next.(state := HSpacesAfterColon); } else { ok := false; }
      case HSpacesAfterColon =>
        SliceBegins(front, bufferIn, i);
        next := next.(state := HValue, valueStart := i);
      case HValue =>
        if ch == '\r' {
          next := next.(state := HCr, valueEnd := i);
          ok := next.valueEnd - next.valueStart > 0;
        } else if i - c.valueStart > 255 {
          ok := false;
        } else {
          SliceGrows(front, bufferIn, c.valueStart, i, p.value);
        }
      case HCr =>
        if ch == '\n' {
          var key := Slice(front, bufferIn, c.keyStart, c.keyEnd);
          var value := Slice(front, bufferIn, c.valueStart, c.valueEnd);
          headers := headers[key := value];
          next := next.(state := HLf, readCur := i);
        } else {
          ok := false;
        }
      case HLf =>
        SliceBegins(front, bufferIn, i);
        if ch == '\r' { next := next.(state := HEndCr); } else { next := next.(state := HKey, keyStart := i); }
      case HEndCr =>
        if ch == '\n' { next := next.(state := HEndLf); } else { ok := false; }
      case HEndLf =>
    }

    /** A turn before the blank line is complete, as a step of the scan. */
    method Advance(i: nat, c: Cursor, front: char, ghost p: Progress, ghost before: map<string, string>,
                   ghost first: ParseState) returns (ok: bool, next: Cursor, ghost q: Progress)
      requires i < |bufferIn| && Scan(Resumed(first, front), bufferIn[..i]) == Some(p) && !p.Complete?
      requires Marks(c, p, front, bufferIn, i) && c.readCur == ReadFrom(Resumed(first, front), p)
      requires headers == Stored(before, LinesOf(p))
      modifies this`headers
      ensures ok ==> Scan(Resumed(first, front), bufferIn[..i + 1]) == Some(q)
      ensures ok ==> |Text(q)| == |Text(Resumed(first, front))| + i + 1
      ensures ok ==> Marks(next, q, front, bufferIn, i + 1)
      ensures ok && !q.Complete? ==> next.readCur == ReadFrom(Resumed(first, front), q)
      ensures !ok ==> Scan(Resumed(first, front), bufferIn).None?
                      && LastGood(Resumed(first, front), bufferIn) == q == p
      ensures headers == Stored(before, LinesOf(q))
    {
      q := p;
      ghost var start := Resumed(first, front);
      ScanPrefix(first, front, bufferIn, i, p);
      ScanSnoc(start, bufferIn, i, p);
      ok, next := Turn(i, c, front, p);
      if ok {
        q := Step(p, bufferIn[i]).value;
        TurnLines(p, bufferIn[i]);
        StepText(p, bufferIn[i]);
        TurnReadFrom(start, p, bufferIn, i);
        TurnStores(before, p, bufferIn[i]);
      } else {
        LastGoodIs(start, bufferIn, i, p);
      }
    }

    /** The loop of parse_Headers, from whichever state an earlier call has left. */
    method ScanBuffer(front: char) returns (ok: bool, c: Cursor, i: nat, ghost p: Progress)
      modifies this`headers, this`parseState
      ensures var start := old(Resumed(parseState, front));
              p == LastGood(start, bufferIn) && Scan(start, bufferIn) == if ok then Some(p) else None
      ensures headers == Stored(old(headers), LinesOf(p)) && parseState == StateOf(p)
      ensures ok ==> c.state == parseState
      ensures ok ==>
        var start := old(Resumed(parseState, front)); var n := |Text(p)| - |Text(start)|;
        if p.Complete? then i <= |bufferIn| && (i == n == |bufferIn| || i == n + 1 >= 1)
        else c.readCur == ReadFrom(start, p) <= |bufferIn|
    {
      ghost var start := Resumed(parseState, front);
      ok, c, i, p := true, Cursor(parseState, -1, -1, -1, -1, 0), 0, start;
      var finished := false;
      while i < |bufferIn| && !finished
        invariant i <= |bufferIn| && parseState == c.state
        invariant Scan(start, bufferIn[..i]) == Some(p) && Marks(c, p, front, bufferIn, i)
        invariant !p.Complete? ==> !finished && c.readCur == ReadFrom(start, p)
        invariant p.Complete? ==> |Text(p)| - |Text(start)| == if finished then i - 1 else i
        invariant headers == Stored(old(headers), LinesOf(p))
      {
        if c.state == HEndLf {
          ScanSnoc(start, bufferIn, i, p);
          finished := true;
          c := c.(keyStart := i, readCur := i);
        } else {
          ok, c, p := Advance(i, c, front, p, old(headers), old(parseState));
          if !ok {
            return;
          }
          parseState := c.state;
        }
        i := i + 1;
      }
      ScanRest(start, bufferIn, i, p);
    }

    /** The loop, and the substr behind it. */
    method ScanAndCut(front: char) returns (verdict: Verdict, ghost p: Progress)
      modifies this`headers, this`bufferIn, this`parseState
      ensures var start := old(Resumed(parseState, front));
              p == LastGood(start, old(bufferIn))
              && Scan(start, old(bufferIn)) == if verdict == Error then None else Some(p)
      ensures verdict != Error ==> (verdict == Success <==> p.Complete?)
      ensures headers == Stored(old(headers), LinesOf(p)) && parseState == StateOf(p)
      ensures bufferIn == Left(old(Resumed(parseState, front)), p, verdict, old(bufferIn))
      ensures verdict == Again ==> 0 <= ReadFrom(old(Resumed(parseState, front)), p) <= |old(bufferIn)|
    {
      var ok, c, i, q := ScanBuffer(front);
      p := q;
      if !ok {
        return Error, p;
      }
      if c.state == HEndLf {
        bufferIn := bufferIn[i..];
        return Success, p;
      }
      bufferIn := bufferIn[c.readCur..];
      return Again, p;
    }

    /** parse_Headers, from whichever state an earlier call has left: the verdict, the headers
        stored, what stays in the buffer, and the state kept for the next call. */
    method ParseHeaders(front: char) returns (verdict: Verdict)
      modifies this`headers, this`bufferIn, this`parseState
      ensures verdict == VerdictOf(Scan(old(Resumed(parseState, front)), old(bufferIn)))
      ensures headers == HeadersAfter(old(headers), old(Resumed(parseState, front)), old(bufferIn))
      ensures bufferIn == BufferAfter(old(Resumed(parseState, front)), old(bufferIn))
      ensures parseState == StateOf(LastGood(old(Resumed(parseState, front)), old(bufferIn)))
      ensures verdict == Error ==> bufferIn == old(bufferIn)
      ensures verdict == Again ==>
        var start := old(Resumed(parseState, front));
        0 <= ReadFrom(start, LastGood(start, old(bufferIn))) <= |old(bufferIn)|
    {
      ghost var p;
      verdict, p := ScanAndCut(front);
    }

    /** The request line is cut off the buffer. */
    method CutRequestLine() returns (line: string)
      requires |bufferIn| < MAX_BUFFER
      modifies this`bufferIn
      ensures line == Substr(old(bufferIn), 0, Find(old(bufferIn), "\r", 0)) && |line| < MAX_BUFFER
      ensures bufferIn == var next := U64(Find(old(bufferIn), "\r", 0) + 1);
                          if |old(bufferIn)| > next then old(bufferIn)[next..] else ""
    {
      var cr := Find(bufferIn, "\r", 0);
      line := Substr(bufferIn, 0, cr);
      var next := U64(cr + 1);
      if |bufferIn| > next { bufferIn := bufferIn[next..]; } else { bufferIn := ""; }
    }

    method ReadMethod(line: string) returns (cur: nat)
      requires |line| < MAX_BUFFER
      modifies this`verb
      ensures FindMethod(line) == if cur == NPOS then None else Some((verb, cur))
      ensures cur == NPOS ==> verb == old(verb)
    {
      var get, post, head := Find(line, "GET", 0), Find(line, "POST", 0), Find(line, "HEAD", 0);
      cur := NPOS;
      if get != NPOS {
        cur, verb := get, Get;
      } else if post != NPOS {
        cur, verb := post, Post;
      } else if head != NPOS {
        cur, verb := head, Head;
      }
    }

    method ReadFile(line: string, slash: nat, space: nat)
      requires |line| < MAX_BUFFER && (slash < |line| || slash == NPOS) && (space < |line| || space == NPOS)
      requires (slash == NPOS ==> space == NPOS) && slash <= space
      modifies this`fileName
      ensures fileName == FileBetween(line, slash, space)
    {
      if U64(space - slash) > 1 {
        fileName := Substr(line, slash + 1, U64(space - slash - 1));
        fileName := Substr(fileName, 0, Find(fileName, "?", 0));
      } else {
        fileName := "index.html";
      }
    }

    method ReadVersion(line: string, slash: nat) returns (verdict: UriVerdict)
      requires |line| < MAX_BUFFER && (slash < |line| || slash == NPOS)
      modifies this`version
      ensures verdict == if VersionAt(line, slash).Some? then UriSuccess else UriError
      ensures version == if VersionAt(line, slash).Some? then VersionAt(line, slash).value else old(version)
    {
      if U64(|line| - slash) <= 3 {
        return UriError;
      }
      var text := Substr(line, U64(slash + 1), 3);
      if text == "1.0" {
        version := Http10;
      } else if text == "1.1" {
        version := Http11;
      } else {
        return UriError;
      }
      return UriSuccess;
    }

    /** The rest of parse_URI, on the line that was cut off. */
    method ParseCutLine(line: string) returns (verdict: UriVerdict)
      requires |line| < MAX_BUFFER
      modifies this`verb, this`version, this`fileName
      ensures (verdict, Request(bufferIn, verb, version, fileName))
              == ParseLine(line, Request(bufferIn, old(verb), old(version), old(fileName)))
    {
      var cur := ReadMethod(line);
      if cur == NPOS {
        return UriError;
      }
      var slash := Find(line, "/", cur);
      var space := Find(line, " ", slash);
      ReadFile(line, slash, space);
      verdict := ReadVersion(line, Find(line, "/", space));
    }

    /** parse_URI. */
    method ParseRequestLine() returns (verdict: UriVerdict)
      requires |bufferIn| < MAX_BUFFER
      modifies this`bufferIn, this`verb, this`version, this`fileName
      ensures (verdict, Request(bufferIn, verb, version, fileName))
              == ParseUri(Request(old(bufferIn), old(verb), old(version), old(fileName)))
    {
      var line := CutRequestLine();
      verdict := ParseCutLine(line);
    }

    /** The stages of handle_read, each falling through to the next. */
    method RunStages(front: char, stoi: string -> Option<int>) returns (outcome: Outcome)
      requires |bufferIn| < MAX_BUFFER
      modifies this`bufferIn, this`verb, this`version, this`fileName, this`headers, this`parseState, this`processState
      ensures (State(), outcome) == Chain(old(State()), front, stoi)
    {
      if processState == AtUri {
        var flag := ParseRequestLine();
        if flag == UriAgain {
          return Wait;
        } else if flag == UriError {
          bufferIn := "";
          return BadRequest;
        }
        processState := AtHeaders;
      }
      if processState == AtHeaders {
        var flag := ParseHeaders(front);
        if flag == Again {
          return Wait;
        } else if flag == Error {
          return BadRequest;
        }
        processState := if verb == Post then AtBody else AtAnalysis;
      }
      if processState == AtBody {
        if CONTENT_LENGTH !in headers {
          return BadRequest;
        }
        var length := stoi(headers[CONTENT_LENGTH]);
        if length.None? {
          return Threw;
        }
        if |bufferIn| < U64(length.value) {
          return Wait;
        }
        processState := AtAnalysis;
      }
      return if processState == AtAnalysis then Analyse else Wait;
    }

    /** reset(), as far as the request goes. */
    method Reset()
      modifies this`bufferIn, this`fileName, this`headers, this`parseState, this`processState
      ensures State() == Cleared(old(State()))
      ensures bufferIn == "" && fileName == "" && headers == map[] && parseState == HStart && processState == AtUri
    {
      bufferIn, fileName, headers := "", "", map[];
      parseState, processState := HStart, AtUri;
    }

    /** The stages on what has been read, and the flags their outcome sets. */
    method Process(front: char, stoi: string -> Option<int>, analysed: bool) returns (outcome: Outcome)
      requires |bufferIn| < MAX_BUFFER
      modifies this`bufferIn, this`verb, this`version, this`fileName, this`headers, this`parseState, this`processState,
               this`isError
      ensures outcome == Chain(old(State()), front, stoi).1
      ensures State() == Finished(Chain(old(State()), front, stoi).0, outcome, analysed)
      ensures isError <==> old(isError) || outcome == BadRequest || (outcome == Analyse && !analysed)
    {
      outcome := RunStages(front, stoi);
      match outcome {
        case Wait =>
        case Threw =>
        case BadRequest => isError := true;
        case Analyse => if analysed { processState := AtFinish; } else { isError := true; }
      }
    }

    /** The end of handle_read: handle_write, then reset() or EPOLLIN. */
    method Conclude(writeFails: bool) returns (rearm: bool)
      modifies this`bufferIn, this`fileName, this`headers, this`parseState, this`processState, this`isError
      ensures isError <==> old(isError) || (!disconnected && writeFails)
      ensures State() == if !isError && old(processState).AtFinish? then Cleared(old(State())) else old(State())
      ensures rearm <==> !isError && !old(processState).AtFinish? && !disconnected
    {
      rearm := false;
      if !isError && !disconnected && writeFails {
        isError := true;
      }
      if !isError && processState == AtFinish {
        Reset();
      } else if !isError && !disconnected {
        rearm := true;
      }
    }

    /** The do-block of handle_read. */
    method TakeIn(received: string, numRead: int, zero: bool, front: char, stoi: string -> Option<int>,
                  analysed: bool) returns (outcome: Outcome)
      requires |bufferIn + received| < MAX_BUFFER && !processState.AtFinish?
      modifies this
      ensures outcome == if old(disconnected) || numRead < 0 || (zero && numRead == 0) then Wait
                         else Chain(Received(old(State()), received), front, stoi).1
      ensures isError <==>
        old(isError)
        || (!old(disconnected)
            && (numRead < 0 || zero || outcome == BadRequest || (outcome == Analyse && !analysed)))
      ensures disconnected <==> old(disconnected) || (zero && numRead >= 0)
      ensures State()
           == if old(disconnected) then old(State()).(request := old(State()).request.(buffer := ""))
              else if numRead < 0 || (zero && numRead == 0) then Received(old(State()), received)
              else Finished(Chain(Received(old(State()), received), front, stoi).0, outcome, analysed)
      ensures processState.AtFinish? <==> outcome == Analyse && analysed
    {
      NeverFinishes(Received(State(), received), front, stoi);
      bufferIn := bufferIn + received;
      outcome := Wait;
      if disconnected {
        bufferIn := "";
      } else if numRead < 0 {
        isError := true;
      } else {
        if zero {
          isError, disconnected := true, true;
        }
        if !zero || numRead != 0 {
          outcome := Process(front, stoi, analysed);
        }
      }
    }

    /** handle_read: what readn delivered, the stages, and what follows; writeFails says that
        there is output and handle_write fails on it. rearm says whether EPOLLIN is asked for
        again. A finished request takes whatever else was in the buffer with it. The flags are
        those the connection model sets for the same outcome. */
    method HandleRead(received: string, numRead: int, zero: bool, front: char, stoi: string -> Option<int>,
                      analysed: bool, writeFails: bool) returns (rearm: bool, outcome: Outcome)
      requires |bufferIn + received| < MAX_BUFFER && !processState.AtFinish?
      modifies this
      ensures outcome == if old(disconnected) || numRead < 0 || (zero && numRead == 0) then Wait
                         else Chain(Received(old(State()), received), front, stoi).1
      ensures isError <==>
        old(isError)
        || (!old(disconnected)
            && (numRead < 0 || zero || outcome == BadRequest || (outcome == Analyse && !analysed)
                || (outcome != Threw && writeFails)))
      ensures disconnected <==> old(disconnected) || (zero && numRead >= 0)
      ensures rearm <==> !isError && !disconnected && outcome != Threw && !(outcome == Analyse && analysed)
      ensures if old(disconnected) then State() == old(State()).(request := old(State()).request.(buffer := ""))
              else if numRead < 0 || (zero && numRead == 0) then State() == Received(old(State()), received)
              else var e := Chain(Received(old(State()), received), front, stoi).0;
                   if outcome == Analyse && analysed && !isError
                   then bufferIn == "" && headers == map[] && fileName == ""
                        && processState.AtUri? && parseState.HStart?
                        && verb == e.request.verb && version == e.request.version
                   else State() == Finished(e, outcome, analysed)
      ensures outcome != Threw ==>
        (isError, disconnected, rearm)
        == ConnFlags(old(disconnected), old(isError), numRead, zero, outcome, analysed, writeFails)
    {
      rearm := false;
      outcome := TakeIn(received, numRead, zero, front, stoi, analysed);
      FlagsAgree(old(disconnected), old(isError), numRead, zero, outcome, analysed, writeFails);
      if outcome != Threw {
        rearm := Conclude(writeFails);
      }
    }
  }
}
