/** parse_Headers called again after PARSE_HEADER_AGAIN. parse_state_ is a member and survives,
    the indices are locals and start over at -1, and the unread part of the buffer starts at the
    LF of the last complete line or at the first key. An index of -1 makes the first character
    read the one that memory holds in front of the buffer; C++ leaves it undefined, and here
    it is any character, called front. */
module HttpResume {
  import opened Prelude
  import opened HttpHeaders

  datatype ParseState = HStart | HKey | HColon | HSpacesAfterColon | HValue | HCr | HLf | HEndCr | HEndLf

  function StateOf(p: Progress): ParseState {
    match p
    case Leading(_) => HStart
    case InKey(_, _, _) => HKey
    case AfterKey(_, _, _) => HColon
    case AfterColon(_, _, _) => HSpacesAfterColon
    case InValue(_, _, _, _) => HValue
    case AfterValue(_, _, _, _) => HCr
    case AfterLine(_, _) => HLf
    case Ending(_, _) => HEndCr
    case Complete(_, _) => HEndLf
  }

  function LinesOf(p: Progress): seq<Line> {
    if p.Leading? then [] else p.lines
  }

  /** The scan a call begins with. An open key or value starts at -1, so front is in it; a
      closed one runs from -1 to -1 and is empty. */
  function Resumed(state: ParseState, front: char): Progress {
    match state
    case HStart => Begin
    case HKey => InKey("", [], [front])
    case HColon => AfterKey("", [], "")
    case HSpacesAfterColon => AfterColon("", [], "")
    case HValue => InValue("", [], "", [front])
    case HCr => AfterValue("", [], "", "")
    case HLf => AfterLine("", [])
    case HEndCr => Ending("", [])
    case HEndLf => Complete("", [])
  }

  /** Where the unread part of the buffer starts if a call that began with start stops at p. */
  function ReadFrom(start: Progress, p: Progress): int {
    if LinesOf(p) != [] then |p.lead + PrintAll(p.lines)| - 1 - |Text(start)|
    else if p.Leading? then 0 else |p.lead|
  }

  /** A scan reads exactly the text its progress stands for, and never goes back to the
      leading characters. */
  lemma {:induction false} ScanReads(p: Progress, s: string)
    requires Scan(p, s).Some?
    ensures var q := Scan(p, s).value;
            (!q.Complete? ==> Text(q) == Text(p) + s) && (q.Leading? ==> p.Leading?)
    decreases |s|
  {
    if s == "" {
      assert Text(p) + s == Text(p);
    } else if p.Complete? {
      ScanFinal(p, s);
    } else {
      StepText(p, s[0]);
      ScanReads(Step(p, s[0]).value, s[1..]);
      Shift(Text(p), s);
    }
  }

  // ---------------------------------------------------------------- where a cut falls

  /** A scan at p can still end with the given block. */
  predicate Leads(p: Progress, lead: string, lines: seq<Line>) {
    if p.Leading? then p.lead <= lead else
    && p.lead == lead && p.lines <= lines
    && (p.InKey? || p.AfterKey? || p.AfterColon? || p.InValue? || p.AfterValue? ==> |p.lines| < |lines|)
    && (p.Ending? || p.Complete? ==> p.lines == lines)
  }

  lemma LeadsBack(p: Progress, c: char, lead: string, lines: seq<Line>)
    requires Step(p, c).Some? && Leads(Step(p, c).value, lead, lines)
    ensures Leads(p, lead, lines)
  {
    if p.AfterValue? { assert p.lines <= p.lines + [Line(p.key, p.value)]; }
  }

  lemma {:induction false} LeadsThere(p: Progress, s: string, lead: string, lines: seq<Line>)
    requires Scan(p, s) == Some(Complete(lead, lines))
    ensures Leads(p, lead, lines)
    decreases |s|
  {
    if s != "" {
      LeadsThere(Step(p, s[0]).value, s[1..], lead, lines);
      LeadsBack(p, s[0], lead, lines);
    }
  }

  /** Inside a block that has been read in part. */
  predicate CutAt(p: Progress, lines: seq<Line>, body: string, k: nat) {
    var s := Block("\n", lines) + body;
    && k < |Block("\n", lines)| && Scan(Begin, s[..k]) == Some(p)
    && !p.Complete? && WellFormed(p) && Text(p) == s[..k] && Leads(p, "\n", lines)
  }

  lemma Cut(lines: seq<Line>, body: string, k: nat) returns (p: Progress)
    requires IsBlock("\n", lines) && k < |Block("\n", lines)|
    ensures CutAt(p, lines, body, k)
  {
    var s := Block("\n", lines) + body;
    PrintThenParse("\n", lines, body);
    assert s == s[..k] + s[k..];
    ScanConcat(Begin, s[..k], s[k..]);
    p := Scan(Begin, s[..k]).value;
    ScanText(Begin, s[..k]);
    assert "" + s[..k] == s[..k];
    LeadsThere(p, s[k..], "\n", lines);
    if p.Complete? {
      ScanFinal(p, s[k..]);
    }
  }

  lemma PrintAllEnds(lines: seq<Line>)
    requires lines != []
    ensures PrintAll(lines) != "" && PrintAll(lines)[|PrintAll(lines)| - 1] == '\n'
  {
    var l := lines[|lines| - 1];
    assert Print(l)[|Print(l)| - 1] == '\n';
  }

  /** What the second call finds: the lines not yet complete, whole, behind the LF of the last
      complete one. */
  function Unread(first: bool, later: seq<Line>, body: string): string {
    (if first then "" else "\n") + (PrintAll(later) + ("\r\n" + body))
  }

  lemma Regrouped(a: string, b: string, c: string, d: string)
    ensures a + (b + c) + "\r\n" + d == a + b + (c + ("\r\n" + d))
  {
  }

  lemma BlockInTwo(lines: seq<Line>, n: nat, body: string)
    requires n <= |lines|
    ensures Block("\n", lines) + body == "\n" + PrintAll(lines[..n]) + (PrintAll(lines[n..]) + ("\r\n" + body))
  {
    assert lines == lines[..n] + lines[n..];
    PrintConcat(lines[..n], lines[n..]);
    Regrouped("\n", PrintAll(lines[..n]), PrintAll(lines[n..]), body);
  }

  lemma DropTo(read: string, tail: string, from: nat, part: string)
    requires from <= |read| && read[from..] == part
    ensures (read + tail)[from..] == part + tail
  {
  }

  lemma ReadFromIs(p: Progress)
    requires !p.Leading? && p.lead == "\n"
    ensures var read := "\n" + PrintAll(p.lines); var from := ReadFrom(Begin, p);
            0 <= from <= |read| <= |Text(p)| && read[from..] == if p.lines == [] then "" else "\n"
  {
    if p.lines != [] {
      PrintAllEnds(p.lines);
      var read := "\n" + PrintAll(p.lines);
      assert read[|read| - 1] == '\n';
    }
  }

  lemma UnreadIs(p: Progress, lines: seq<Line>, body: string, k: nat)
    requires CutAt(p, lines, body, k) && !p.Leading?
    ensures var s := Block("\n", lines) + body; var from := ReadFrom(Begin, p);
            0 <= from <= k && s[from..] == Unread(p.lines == [], lines[|p.lines|..], body)
  {
    ReadFromIs(p);
    assert p.lines == lines[..|p.lines|];
    BlockInTwo(lines, |p.lines|, body);
    DropTo("\n" + PrintAll(p.lines), PrintAll(lines[|p.lines|..]) + ("\r\n" + body), ReadFrom(Begin, p),
           if p.lines == [] then "" else "\n");
  }

  // ---------------------------------------------------------------- the second call

  /** A line whose key has none of colon, CR and LF and no space in front, and whose value has
      no CR. */
  predicate IsPlain(l: Line) {
    IsLine(l) && l.key[0] != ':' && l.key[0] != '\r' && l.key[0] != '\n' && l.key[0] != ' ' && l.value[0] != '\r'
  }

  predicate ArePlain(lines: seq<Line>) {
    forall i :: 0 <= i < |lines| ==> IsPlain(lines[i])
  }

  /** What the line that was cut in its value is taken for. */
  function Merged(state: ParseState, first: bool, l: Line, front: char): string {
    (if state.HValue? then [front] else "") + (if first then "" else "\n") + (l.key + ": " + l.value)
  }

  /** The lines the second call stores, by the state it resumes in; first says that no line was
      complete, and later are the lines that were not. None is PARSE_HEADER_ERROR. */
  function Retold(state: ParseState, first: bool, later: seq<Line>, front: char): Option<seq<Line>> {
    match state
    case HStart => Some(later)
    case HKey =>
      if first && later != [] then Some([Line([front] + later[0].key, later[0].value)] + later[1..]) else None
    case HColon => None
    case HSpacesAfterColon | HValue =>
      if later != [] && |Merged(state, first, later[0], front)| <= MAX_VALUE
      then Some([Line("", Merged(state, first, later[0], front))] + later[1..]) else None
    case HCr => if first then None else Some([Line("", "")] + later)
    case HLf => if later != [] then Some([Line("\n" + later[0].key, later[0].value)] + later[1..]) else None
    case HEndCr => Some([])
    case HEndLf => None
  }

  /** The scan of the second call when it is resumed behind leading characters. */
  function ToldScan(state: ParseState, first: bool, later: seq<Line>, front: char): Option<Progress> {
    match Retold(state, first, later, front)
    case None => None
    case Some(lines) => Some(Complete("", lines))
  }

  lemma SplitUnread(first: bool, later: seq<Line>, body: string)
    requires later != []
    ensures Unread(first, later, body)
         == (if first then "" else "\n") + (Print(later[0]) + (PrintAll(later[1..]) + "\r\n" + body))
  {
    assert later == [later[0]] + later[1..];
    PrintConcat([later[0]], later[1..]);
    PrintOne(later[0]);
    Grouped(Print(later[0]), PrintAll(later[1..]), body);
  }

  lemma Grouped(a: string, b: string, c: string)
    ensures (a + b) + ("\r\n" + c) == a + (b + "\r\n" + c)
  {
  }

  lemma PrintShape(l: Line, more: string)
    ensures Print(l) + more == (l.key + (": " + (l.value + "\r\n"))) + more
    ensures Print(l) + more == (l.key + ": " + l.value) + ("\r\n" + more)
  {
  }

  lemma ScanRefuses(p: Progress, s: string)
    requires s != "" && Step(p, s[0]).None?
    ensures Scan(p, s) == None
  {
  }

  /** A key that begins with a character of its own and goes on with a plain line. */
  lemma KeyGoesOn(c: char, later: seq<Line>, body: string)
    requires ArePlain(later) && later != []
    ensures Scan(InKey("", [], [c]), Print(later[0]) + (PrintAll(later[1..]) + "\r\n" + body))
         == Some(Complete("", [Line([c] + later[0].key, later[0].value)] + later[1..]))
  {
    var l, l' := later[0], Line([c] + later[0].key, later[0].value);
    var more := PrintAll(later[1..]) + "\r\n" + body;
    assert l'.key[..1] == [c] && l'.key[1..] == l.key;
    assert IsKey(l'.key) by {
      forall i | 1 <= i < |l'.key| ensures l'.key[i] == l.key[i - 1] {}
    }
    ScansLineTail("", [], l');
    assert [] + [l'] == [l'];
    PrintShape(l, more);
    ScanConcat(InKey("", [], [c]), l.key + (": " + (l.value + "\r\n")), more);
    LinesThenEnd("", l', later[1..], body);
  }

  lemma {:induction false} ValueTooLong(p: Progress, u: string, more: string)
    requires p.InValue? && |p.value| <= MAX_VALUE < |p.value| + |u|
    requires forall i :: 0 <= i < |u| ==> u[i] != '\r'
    ensures Scan(p, u + more) == None
    decreases |u|
  {
    assert (u + more)[0] == u[0];
    if |p.value| <= 255 {
      assert (u + more)[1..] == u[1..] + more;
      ValueTooLong(Step(p, u[0]).value, u[1..], more);
    }
  }

  /** A value that goes on with u up to the end of the line. */
  lemma ValueGoesOn(p: Progress, u: string, more: string)
    requires p.InValue? && |p.value| <= MAX_VALUE && forall i :: 0 <= i < |u| ==> u[i] != '\r'
    ensures Scan(p, u + ("\r\n" + more))
         == if |p.value + u| <= MAX_VALUE then Scan(AfterLine(p.lead, p.lines + [Line(p.key, p.value + u)]), more)
            else None
  {
    if |p.value + u| <= MAX_VALUE {
      ScansValue(p.lead, p.lines, p.key, p.value, u);
      ScanConcat(p, u, "\r\n" + more);
      ScansBreak(InValue(p.lead, p.lines, p.key, p.value + u), more);
    } else {
      ValueTooLong(p, u, "\r\n" + more);
    }
  }

  lemma MergedHasNoCr(state: ParseState, first: bool, l: Line, front: char)
    requires IsPlain(l) && !state.HValue?
    ensures var u := Merged(state, first, l, front); u != "" && forall i :: 0 <= i < |u| ==> u[i] != '\r'
  {
    var nl := if first then "" else "\n";
    var u := Merged(state, first, l, front);
    assert u == nl + l.key + ": " + l.value;
    forall i | 0 <= i < |u| ensures u[i] != '\r' {
      if |nl| <= i < |nl + l.key| {
        assert u[i] == l.key[i - |nl|];
      } else if |nl + l.key| + 2 <= i {
        assert u[i] == l.value[i - |nl + l.key| - 2];
      }
    }
  }

  lemma MergedShape(state: ParseState, first: bool, l: Line, front: char, more: string)
    requires !state.HValue?
    ensures (if first then "" else "\n") + (Print(l) + more) == Merged(state, first, l, front) + ("\r\n" + more)
    ensures Merged(HValue, first, l, front) == [front] + Merged(state, first, l, front)
  {
    PrintShape(l, more);
    assert "" + (if first then "" else "\n") == if first then "" else "\n";
    Regroup(if first then "" else "\n", l.key + ": " + l.value, "\r\n" + more);
    Regroup([front], if first then "" else "\n", l.key + ": " + l.value);
  }

  /** The lines stored when the line that was cut is taken for the value u with an empty key. */
  function Swallowed(u: string, later: seq<Line>): Option<Progress> {
    if |u| <= MAX_VALUE then Some(Complete("", [Line("", u)] + later)) else None
  }

  lemma SwallowsFrom(value: string, u: string, later: seq<Line>, body: string)
    requires ArePlain(later) && |value| <= MAX_VALUE && forall i :: 0 <= i < |u| ==> u[i] != '\r'
    ensures Scan(InValue("", [], "", value), u + ("\r\n" + (PrintAll(later) + "\r\n" + body)))
         == Swallowed(value + u, later)
  {
    ValueGoesOn(InValue("", [], "", value), u, PrintAll(later) + "\r\n" + body);
    assert [] + [Line("", value + u)] == [Line("", value + u)];
    LinesThenEnd("", Line("", value + u), later, body);
  }

  lemma ValueBegins(u: string, more: string)
    requires u != ""
    ensures Scan(AfterColon("", [], ""), u + more) == Scan(InValue("", [], "", u[..1]), u[1..] + more)
  {
    assert u + more == [u[0]] + (u[1..] + more);
    assert u[..1] == [u[0]];
    ScanFirst(AfterColon("", [], ""), u[0], u[1..] + more);
  }

  lemma Swallows(u: string, later: seq<Line>, body: string)
    requires ArePlain(later) && u != "" && forall i :: 0 <= i < |u| ==> u[i] != '\r'
    ensures Scan(AfterColon("", [], ""), u + ("\r\n" + (PrintAll(later) + "\r\n" + body))) == Swallowed(u, later)
  {
    ValueBegins(u, "\r\n" + (PrintAll(later) + "\r\n" + body));
    SwallowsFrom(u[..1], u[1..], later, body);
    assert u[..1] + u[1..] == u;
  }

  lemma ResumeInValue(state: ParseState, first: bool, later: seq<Line>, front: char, body: string)
    requires ArePlain(later) && later != [] && (state.HValue? || state.HSpacesAfterColon?)
    ensures Scan(Resumed(state, front), Unread(first, later, body)) == ToldScan(state, first, later, front)
  {
    var l, rest := later[0], later[1..];
    var u := Merged(HSpacesAfterColon, first, l, front);
    SplitUnread(first, later, body);
    MergedHasNoCr(HSpacesAfterColon, first, l, front);
    MergedShape(HSpacesAfterColon, first, l, front, PrintAll(rest) + "\r\n" + body);
    if state.HValue? {
      SwallowsFrom([front], u, rest, body);
    } else {
      Swallows(u, rest, body);
    }
  }

  lemma ResumeInKey(first: bool, later: seq<Line>, front: char, body: string)
    requires ArePlain(later) && later != []
    ensures Scan(Resumed(HKey, front), Unread(first, later, body))
         == ToldScan(HKey, first, later, front)
  {
    SplitUnread(first, later, body);
    var s := Print(later[0]) + (PrintAll(later[1..]) + "\r\n" + body);
    if first {
      assert "" + s == s;
      KeyGoesOn(front, later, body);
    } else {
      ScanRefuses(Resumed(HKey, front), "\n" + s);
    }
  }

  lemma UnreadStarts(first: bool, later: seq<Line>, body: string)
    requires later != [] && later[0].key != ""
    ensures Unread(first, later, body) != ""
    ensures Unread(first, later, body)[0] == if first then later[0].key[0] else '\n'
  {
    PrintStarts(later);
  }

  /** After the CR of a value, and after the LF behind it. */
  lemma ResumeAtBreak(state: ParseState, first: bool, later: seq<Line>, front: char, body: string)
    requires ArePlain(later) && ((state.HCr? && later != []) || (state.HLf? && !first))
    ensures Scan(Resumed(state, front), Unread(first, later, body))
         == ToldScan(state, first, later, front)
  {
    var p := Resumed(state, front);
    if first {
      UnreadStarts(first, later, body);
      ScanRefuses(p, Unread(first, later, body));
    } else if state.HCr? {
      ScanFirst(p, '\n', PrintAll(later) + ("\r\n" + body));
      Regroup(PrintAll(later), "\r\n", body);
      assert [] + [Line("", "")] == [Line("", "")];
      LinesThenEnd("", Line("", ""), later, body);
    } else if later == [] {
      assert Unread(first, later, body) == ['\n'] + (['\r'] + ("\n" + body));
      ScanFirst(p, '\n', ['\r'] + ("\n" + body));
      ScanFirst(InKey("", [], "\n"), '\r', "\n" + body);
    } else {
      SplitUnread(first, later, body);
      ScanFirst(p, '\n', Print(later[0]) + (PrintAll(later[1..]) + "\r\n" + body));
      KeyGoesOn('\n', later, body);
    }
  }

  lemma ResumeAtEnd(front: char, body: string)
    ensures Scan(Resumed(HEndCr, front), Unread(false, [], body)) == Some(Complete("", []))
  {
    assert Unread(false, [], body) == ['\n'] + ("\r\n" + body);
    ScanFirst(Ending("", []), '\n', "\r\n" + body);
    ScanFinal(Complete("", []), "\r\n" + body);
  }

  lemma ResumeAtColon(first: bool, later: seq<Line>, front: char, body: string)
    requires ArePlain(later) && later != []
    ensures Scan(Resumed(HColon, front), Unread(first, later, body)) == None
  {
    UnreadStarts(first, later, body);
    ScanRefuses(Resumed(HColon, front), Unread(first, later, body));
  }

  /** The lines that were not complete at p. */
  function Later(p: Progress, lines: seq<Line>): seq<Line> {
    if |LinesOf(p)| <= |lines| then lines[|LinesOf(p)|..] else []
  }

  /** The second call on what the first left. */
  lemma ResumedScan(state: ParseState, first: bool, later: seq<Line>, front: char, body: string)
    requires ArePlain(later) && !state.HStart? && !state.HEndLf?
    requires state.HLf? || state.HEndCr? ==> !first
    requires if state.HEndCr? then later == [] else later != [] || state.HLf?
    ensures Scan(Resumed(state, front), Unread(first, later, body))
         == ToldScan(state, first, later, front)
  {
    match state
    case HKey => ResumeInKey(first, later, front, body);
    case HColon => ResumeAtColon(first, later, front, body);
    case HSpacesAfterColon => ResumeInValue(state, first, later, front, body);
    case HValue => ResumeInValue(state, first, later, front, body);
    case HCr => ResumeAtBreak(state, first, later, front, body);
    case HLf => ResumeAtBreak(state, first, later, front, body);
    case HEndCr => ResumeAtEnd(front, body);
  }

  lemma CutState(p: Progress, lines: seq<Line>, body: string, k: nat)
    requires CutAt(p, lines, body, k) && !p.Leading?
    ensures var state := StateOf(p);
            && !state.HStart? && !state.HEndLf? && |p.lines| <= |lines|
            && (state.HLf? || state.HEndCr? ==> p.lines != [])
            && (if state.HEndCr? then |p.lines| == |lines| else |p.lines| < |lines| || state.HLf?)
  {
  }

  /** A block in two reads: what the second call makes of it, wherever the cut falls and
      whatever memory holds in front of the buffer. */
  lemma SplitBlock(lines: seq<Line>, body: string, k: nat, front: char, p: Progress)
    requires AreLines(lines) && ArePlain(lines) && lines != [] && CutAt(p, lines, body, k)
    ensures var s := Block("\n", lines) + body; var from := ReadFrom(Begin, p);
            && 0 <= from <= k
            && Scan(Resumed(StateOf(p), front), s[from..])
               == match Retold(StateOf(p), LinesOf(p) == [], Later(p, lines), front)
                  case None => None
                  case Some(ls) => Some(Complete(if p.Leading? then "\n" else "", ls))
  {
    if p.Leading? {
      PrintThenParse("\n", lines, body);
    } else {
      CutState(p, lines, body, k);
      UnreadIs(p, lines, body, k);
      ResumedScan(StateOf(p), p.lines == [], lines[|p.lines|..], front, body);
    }
  }

  // ---------------------------------------------------------------- which cuts do no harm

  lemma LeadingIsShort(lines: seq<Line>, body: string, k: nat, p: Progress)
    requires AreLines(lines) && lines != [] && CutAt(p, lines, body, k)
    ensures p.Leading? <==> k <= 1
  {
    BlockStarts(lines, body);
    if !p.Leading? {
      NonEmptyBehindLead(p);
    }
  }

  lemma NonEmptyBehindLead(p: Progress)
    requires !p.Leading? && WellFormed(p)
    ensures |Text(p)| > |p.lead|
  {
    if p.AfterLine? || p.Ending? || p.Complete? { PrintAllEnds(p.lines); }
  }

  lemma EndingIsLast(lines: seq<Line>, body: string, k: nat, p: Progress)
    requires AreLines(lines) && lines != [] && CutAt(p, lines, body, k)
    ensures p.Ending? <==> k + 1 == |Block("\n", lines)|
  {
    var s := Block("\n", lines) + body;
    if !p.Ending? && k + 1 == |Block("\n", lines)| {
      assert s[..k + 1] == Block("\n", lines) && s[..k + 1] == s[..k] + [s[k]];
      PrintThenParse("\n", lines, "");
      assert Block("\n", lines) + "" == Block("\n", lines);
      ScanConcat(Begin, s[..k], [s[k]]);
      ScanOne(p, s[k]);
    }
  }

  /** The two calls together store exactly the lines of the block if and only if the cut falls
      in front of the first key or in front of the very last LF. */
  lemma HarmlessCuts(lines: seq<Line>, body: string, k: nat, front: char, p: Progress)
    requires AreLines(lines) && ArePlain(lines) && lines != [] && CutAt(p, lines, body, k)
    ensures var told := Retold(StateOf(p), LinesOf(p) == [], Later(p, lines), front);
            told.Some? && LinesOf(p) + told.value == lines <==> k <= 1 || k + 1 == |Block("\n", lines)|
  {
    LeadingIsShort(lines, body, k, p);
    EndingIsLast(lines, body, k, p);
    if p.Leading? {
      assert [] + lines == lines;
    } else {
      CutState(p, lines, body, k);
      assert p.lines == lines[..|p.lines|];
      if p.Ending? {
        assert p.lines + [] == lines;
      } else {
        ToldDiffers(StateOf(p), lines, |p.lines|, front);
      }
    }
  }

  lemma ToldDiffers(state: ParseState, lines: seq<Line>, n: nat, front: char)
    requires n <= |lines| && ArePlain(lines) && !state.HStart? && !state.HEndCr? && !state.HEndLf?
    requires n < |lines| || state.HLf?
    ensures var told := Retold(state, n == 0, lines[n..], front);
            told.Some? ==> lines[..n] + told.value != lines
  {
    var told := Retold(state, n == 0, lines[n..], front);
    if told.Some? {
      DifferentFirst(state, n == 0, lines[n..], front);
      assert (lines[..n] + told.value)[n] == told.value[0];
    }
  }

  lemma DifferentFirst(state: ParseState, first: bool, later: seq<Line>, front: char)
    requires ArePlain(later) && !state.HStart? && !state.HEndCr?
    requires later != [] || state.HLf? || state.HEndLf?
    ensures var told := Retold(state, first, later, front);
            told.Some? ==> later != [] && told.value != [] && told.value[0].key != later[0].key
  {
    if later != [] {
      assert |[front] + later[0].key| != |later[0].key| && |"\n" + later[0].key| != |later[0].key|;
    }
  }

  /** What memory holds in front of the buffer decides what is stored if and only if the cut
      fell in the first key, or in a value that is not too long for what goes into it. */
  lemma FrontMatters(state: ParseState, first: bool, later: seq<Line>, front: char, other: char)
    requires later != [] && front != other
    ensures Retold(state, first, later, front) != Retold(state, first, later, other)
            <==> (state.HKey? && first) || (state.HValue? && |Merged(state, first, later[0], front)| <= MAX_VALUE)
  {
    var a, b := Retold(state, first, later, front), Retold(state, first, later, other);
    if state.HKey? && first {
      assert a.value[0].key[0] == front && b.value[0].key[0] == other;
    } else if state.HValue? && a.Some? && b.Some? {
      assert a.value[0].value[0] == front && b.value[0].value[0] == other;
    }
  }

  // ---------------------------------------------------------------- where the second call stops

  lemma PrintSize(l: Line, lines: seq<Line>)
    ensures |PrintAll([l] + lines)| == |l.key| + |l.value| + 4 + |PrintAll(lines)|
  {
    PrintConcat([l], lines);
    PrintOne(l);
  }

  lemma UnreadSize(first: bool, l: Line, rest: seq<Line>)
    ensures |Unread(first, [l] + rest, "")| == |l.key| + |l.value| + 6 + |PrintAll(rest)| + if first then 0 else 1
  {
    PrintSize(l, rest);
  }

  lemma BlockSize(l: Line, rest: seq<Line>)
    ensures |Block("", [l] + rest)| == |l.key| + |l.value| + 6 + |PrintAll(rest)|
  {
    PrintSize(l, rest);
  }

  lemma KeyToldSize(c: char, first: bool, later: seq<Line>)
    requires later != []
    ensures |Block("", [Line([c] + later[0].key, later[0].value)] + later[1..])|
         == |Unread(first, later, "")| + if first then 1 else 0
  {
    assert later == [later[0]] + later[1..];
    UnreadSize(first, later[0], later[1..]);
    BlockSize(Line([c] + later[0].key, later[0].value), later[1..]);
  }

  lemma MergedToldSize(state: ParseState, first: bool, later: seq<Line>, front: char)
    requires later != []
    ensures |Block("", [Line("", Merged(state, first, later[0], front))] + later[1..])|
         == |Unread(first, later, "")| + if state.HValue? then 3 else 2
  {
    assert later == [later[0]] + later[1..];
    UnreadSize(first, later[0], later[1..]);
    BlockSize(Line("", Merged(state, first, later[0], front)), later[1..]);
  }

  lemma BreakToldSize(later: seq<Line>)
    ensures |Block("", [Line("", "")] + later)| == |Unread(false, later, "")| + 3
  {
    BlockSize(Line("", ""), later);
  }

  lemma ResumedSize(state: ParseState, front: char)
    requires !state.HStart? && !state.HEndLf?
    ensures |Text(Resumed(state, front))|
         == if state.HLf? then 0 else if state.HSpacesAfterColon? then 2
            else if state.HValue? || state.HCr? then 3 else 1
  {
    assert PrintAll([]) == "";
  }

  lemma EndSize(told: seq<Line>)
    requires told == []
    ensures |Block("", told)| == 2
  {
    assert PrintAll(told) == "";
  }

  /** Up to the end of the block, or one character short of it behind its last CR. */
  lemma ToldSize(state: ParseState, first: bool, later: seq<Line>, front: char, lines: seq<Line>)
    requires !state.HStart? && !state.HEndLf? && (state.HLf? ==> !first)
    requires Retold(state, first, later, front) == Some(lines)
    ensures |Block("", lines)| - |Text(Resumed(state, front))|
         == if state.HEndCr? then 1 else |Unread(first, later, "")|
  {
    ResumedSize(state, front);
    match state
    case HKey => KeyToldSize(front, first, later);
    case HSpacesAfterColon => MergedToldSize(state, first, later, front);
    case HValue => MergedToldSize(state, first, later, front);
    case HCr => BreakToldSize(later);
    case HLf => KeyToldSize('\n', first, later);
    case HEndCr => EndSize(lines);
  }

  lemma {:induction false} StoredConcat(headers: map<string, string>, a: seq<Line>, b: seq<Line>)
    ensures Stored(Stored(headers, a), b) == Stored(headers, a + b)
    decreases |b|
  {
    if b == [] {
      assert a + b == a;
    } else {
      var n := |b| - 1;
      assert (a + b)[..|a + b| - 1] == a + b[..n];
      StoredConcat(headers, a, b[..n]);
    }
  }
}
