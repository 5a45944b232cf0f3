/** The header parser of HttpData.cpp: its automaton, the grammar it accepts, and the exact
    meaning of its three verdicts. */
module HttpHeaders {
  import opened Prelude

  // ---------------------------------------------------------------- the grammar

  const MAX_VALUE: nat := 256

  datatype Line = Line(key: string, value: string)

  predicate IsLead(c: char) {
    c == '\n' || c == 'r'
  }

  /** A key: any first character, then none of colon, CR and LF. */
  predicate IsKey(key: string) {
    key != "" && forall i :: 1 <= i < |key| ==> key[i] != ':' && key[i] != '\r' && key[i] != '\n'
  }

  /** A value: any first character, then no CR, 256 characters at most. */
  predicate IsValue(value: string) {
    1 <= |value| <= MAX_VALUE && forall i :: 1 <= i < |value| ==> value[i] != '\r'
  }

  predicate IsLine(l: Line) {
    IsKey(l.key) && IsValue(l.value)
  }

  /** The first key must not look like leading material, a later one not like the end. */
  predicate KeyFits(key: string, first: bool) {
    key != "" && if first then !IsLead(key[0]) else key[0] != '\r'
  }

  predicate AreLines(lines: seq<Line>) {
    forall i :: 0 <= i < |lines| ==> IsLine(lines[i]) && KeyFits(lines[i].key, i == 0)
  }

  predicate IsLeading(lead: string) {
    forall i :: 0 <= i < |lead| ==> IsLead(lead[i])
  }

  function Print(l: Line): string {
    l.key + ": " + l.value + "\r\n"
  }

  function PrintAll(lines: seq<Line>): string {
    if lines == [] then "" else PrintAll(lines[..|lines| - 1]) + Print(lines[|lines| - 1])
  }

  /** A header block: leading characters, one or more lines, a blank line. */
  function Block(lead: string, lines: seq<Line>): string {
    lead + PrintAll(lines) + "\r\n"
  }

  predicate IsBlock(lead: string, lines: seq<Line>) {
    IsLeading(lead) && AreLines(lines) && lines != []
  }

  // ---------------------------------------------------------------- the automaton

  /** How far a scan has come; the constructors are the nine states H_START to H_END_LF. */
  datatype Progress =
    | Leading(lead: string)
    | InKey(lead: string, lines: seq<Line>, key: string)
    | AfterKey(lead: string, lines: seq<Line>, key: string)
    | AfterColon(lead: string, lines: seq<Line>, key: string)
    | InValue(lead: string, lines: seq<Line>, key: string, value: string)
    | AfterValue(lead: string, lines: seq<Line>, key: string, value: string)
    | AfterLine(lead: string, lines: seq<Line>)
    | Ending(lead: string, lines: seq<Line>)
    | Complete(lead: string, lines: seq<Line>)

  const Begin := Leading("")

  /** One turn of the switch; None is PARSE_HEADER_ERROR. */
  function Step(p: Progress, c: char): Option<Progress> {
    match p
    case Leading(lead) => if IsLead(c) then Some(Leading(lead + [c])) else Some(InKey(lead, [], [c]))
    case InKey(lead, lines, key) =>
      if c == ':' then Some(AfterKey(lead, lines, key))
      else if c == '\n' || c == '\r' then None
      else Some(InKey(lead, lines, key + [c]))
    case AfterKey(lead, lines, key) => if c == ' ' then Some(AfterColon(lead, lines, key)) else None
    case AfterColon(lead, lines, key) => Some(InValue(lead, lines, key, [c]))
    case InValue(lead, lines, key, value) =>
      if c == '\r' then Some(AfterValue(lead, lines, key, value))
      else if |value| > 255 then None
      else Some(InValue(lead, lines, key, value + [c]))
    case AfterValue(lead, lines, key, value) =>
      if c == '\n' then Some(AfterLine(lead, lines + [Line(key, value)])) else None
    case AfterLine(lead, lines) =>
      if c == '\r' then Some(Ending(lead, lines)) else Some(InKey(lead, lines, [c]))
    case Ending(lead, lines) => if c == '\n' then Some(Complete(lead, lines)) else None
    case Complete(_, _) => Some(p)
  }

  function Scan(p: Progress, s: string): Option<Progress>
    decreases |s|
  {
    if s == "" then Some(p) else
    match Step(p, s[0])
    case None => None
    case Some(q) => Scan(q, s[1..])
  }

  datatype Verdict = Success | Again | Error

  function VerdictOf(r: Option<Progress>): Verdict {
    if r.None? then Error else if r.value.Complete? then Success else Again
  }

  /** The verdict on a buffer, from H_START. */
  function Judge(s: string): Verdict {
    VerdictOf(Scan(Begin, s))
  }

  // ---------------------------------------------------------------- what has been read

  /** The characters a scan has consumed. */
  function Text(p: Progress): string {
    match p
    case Leading(lead) => lead
    case InKey(lead, lines, key) => lead + PrintAll(lines) + key
    case AfterKey(lead, lines, key) => lead + PrintAll(lines) + (key + ":")
    case AfterColon(lead, lines, key) => lead + PrintAll(lines) + (key + ": ")
    case InValue(lead, lines, key, value) => lead + PrintAll(lines) + (key + ": " + value)
    case AfterValue(lead, lines, key, value) => lead + PrintAll(lines) + (key + ": " + value + "\r")
    case AfterLine(lead, lines) => lead + PrintAll(lines)
    case Ending(lead, lines) => lead + PrintAll(lines) + "\r"
    case Complete(lead, lines) => Block(lead, lines)
  }

  predicate WellFormed(p: Progress) {
    && IsLeading(p.lead)
    && (!p.Leading? ==> AreLines(p.lines))
    && (p.AfterLine? || p.Ending? || p.Complete? ==> p.lines != [])
    && (p.InKey? || p.AfterKey? || p.AfterColon? || p.InValue? || p.AfterValue? ==>
          IsKey(p.key) && KeyFits(p.key, p.lines == []))
    && (p.InValue? || p.AfterValue? ==> IsValue(p.value))
  }

  lemma Glue(base: string, part: string, c: char)
    ensures base + part + [c] == base + (part + [c])
  {
  }

  lemma StepText(p: Progress, c: char)
    requires !p.Complete? && Step(p, c).Some?
    ensures Text(Step(p, c).value) == Text(p) + [c]
  {
    match p
    case Leading(lead) => assert PrintAll([]) == "";
    case InKey(lead, lines, key) => Glue(lead + PrintAll(lines), key, c);
    case AfterKey(lead, lines, key) => Glue(lead + PrintAll(lines), key + ":", c); assert key + ": " == key + ":" + " ";
    case AfterColon(lead, lines, key) => Glue(lead + PrintAll(lines), key + ": ", c);
    case InValue(lead, lines, key, value) =>
      Glue(lead + PrintAll(lines), key + ": " + value, c);
      Glue(key + ": ", value, c);
    case AfterValue(lead, lines, key, value) =>
      var l := Line(key, value);
      assert (lines + [l])[..|lines|] == lines;
      assert Print(l) == key + ": " + value + "\r" + ['\n'];
      Glue(lead + PrintAll(lines), key + ": " + value + "\r", c);
      assert lead + PrintAll(lines + [l]) == lead + (PrintAll(lines) + Print(l));
      assert lead + (PrintAll(lines) + Print(l)) == lead + PrintAll(lines) + Print(l);
    case AfterLine(lead, lines) =>
    case Ending(lead, lines) =>
      Glue(lead + PrintAll(lines), "\r", c);
      assert "\r" + ['\n'] == "\r\n";
  }

  lemma StepWellFormed(p: Progress, c: char)
    requires WellFormed(p) && Step(p, c).Some?
    ensures WellFormed(Step(p, c).value)
  {
  }

  lemma {:induction false} ScanConcat(p: Progress, a: string, b: string)
    ensures Scan(p, a + b) == (match Scan(p, a) case None => None case Some(q) => Scan(q, b))
    decreases |a|
  {
    if a == "" {
      assert a + b == b;
    } else {
      assert (a + b)[1..] == a[1..] + b;
      if Step(p, a[0]).Some? { ScanConcat(Step(p, a[0]).value, a[1..], b); }
    }
  }

  lemma {:induction false} ScanFinal(p: Progress, s: string)
    requires p.Complete?
    ensures Scan(p, s) == Some(p)
    decreases |s|
  {
    if s != "" { ScanFinal(p, s[1..]); }
  }

  lemma Shift(a: string, s: string)
    requires s != ""
    ensures a + [s[0]] + s[1..] == a + s
  {
  }

  /** A scan reads exactly the text its progress stands for, up to the end of the block. */
  lemma {:induction false} ScanText(p: Progress, s: string)
    requires WellFormed(p) && Scan(p, s).Some?
    ensures var q := Scan(p, s).value;
            WellFormed(q) && Text(q) <= Text(p) + s && (!q.Complete? ==> Text(q) == Text(p) + s)
    decreases |s|
  {
    if s == "" {
      assert Text(p) + s == Text(p);
    } else if p.Complete? {
      ScanFinal(p, s);
    } else {
      StepText(p, s[0]);
      StepWellFormed(p, s[0]);
      ScanText(Step(p, s[0]).value, s[1..]);
      Shift(Text(p), s);
    }
  }

  // ---------------------------------------------------------------- accepting a block

  lemma {:induction false} ScansLead(lead: string, more: string)
    requires IsLeading(more)
    ensures Scan(Leading(lead), more) == Some(Leading(lead + more))
    decreases |more|
  {
    if more == "" {
      assert lead + more == lead;
    } else {
      ScansLead(lead + [more[0]], more[1..]);
      assert lead + [more[0]] + more[1..] == lead + more;
    }
  }

  lemma {:induction false} ScansKey(lead: string, lines: seq<Line>, key: string, more: string)
    requires forall i :: 0 <= i < |more| ==> more[i] != ':' && more[i] != '\r' && more[i] != '\n'
    ensures Scan(InKey(lead, lines, key), more) == Some(InKey(lead, lines, key + more))
    decreases |more|
  {
    if more == "" {
      assert key + more == key;
    } else {
      ScansKey(lead, lines, key + [more[0]], more[1..]);
      assert key + [more[0]] + more[1..] == key + more;
    }
  }

  lemma {:induction false} ScansValue(lead: string, lines: seq<Line>, key: string, value: string, more: string)
    requires |value| + |more| <= MAX_VALUE && forall i :: 0 <= i < |more| ==> more[i] != '\r'
    ensures Scan(InValue(lead, lines, key, value), more) == Some(InValue(lead, lines, key, value + more))
    decreases |more|
  {
    if more == "" {
      assert value + more == value;
    } else {
      ScansValue(lead, lines, key, value + [more[0]], more[1..]);
      assert value + [more[0]] + more[1..] == value + more;
    }
  }

  lemma ScanTwo(p: Progress, a: char, b: char)
    ensures Scan(p, [a, b]) == (match Step(p, a) case None => None case Some(q) => Step(q, b))
  {
    assert [a, b][1..] == [b] && [b][1..] == "";
    if Step(p, a).Some? {
      var q := Step(p, a).value;
      assert Scan(q, [b]) == match Step(q, b) case None => None case Some(r) => Scan(r, "");
    }
  }

  lemma ScanOne(p: Progress, c: char)
    ensures Scan(p, [c]) == Step(p, c)
  {
    assert [c][1..] == "";
    if Step(p, c).Some? { assert Scan(Step(p, c).value, "") == Step(p, c); }
  }

  /** From inside the key to the end of the line. */
  lemma ScansLineTail(lead: string, lines: seq<Line>, l: Line)
    requires IsLine(l)
    ensures Scan(InKey(lead, lines, l.key[..1]), l.key[1..] + (": " + (l.value + "\r\n")))
            == Some(AfterLine(lead, lines + [l]))
  {
    var v := l.value;
    ScansKey(lead, lines, l.key[..1], l.key[1..]);
    assert l.key[..1] + l.key[1..] == l.key;
    ScanTwo(InKey(lead, lines, l.key), ':', ' ');
    assert ": " == [':', ' '] && "\r\n" == ['\r', '\n'];
    ScanOne(AfterColon(lead, lines, l.key), v[0]);
    ScansValue(lead, lines, l.key, [v[0]], v[1..]);
    assert [v[0]] + v[1..] == v;
    ScanTwo(InValue(lead, lines, l.key, v), '\r', '\n');
    ScanConcat(InValue(lead, lines, l.key, [v[0]]), v[1..], "\r\n");
    ScanConcat(AfterColon(lead, lines, l.key), [v[0]], v[1..] + "\r\n");
    assert [v[0]] + (v[1..] + "\r\n") == v + "\r\n";
    ScanConcat(InKey(lead, lines, l.key), ": ", v + "\r\n");
    ScanConcat(InKey(lead, lines, l.key[..1]), l.key[1..], ": " + (v + "\r\n"));
  }

  /** A printed line takes the scan from one line end to the next. */
  lemma ScansLine(lead: string, lines: seq<Line>, l: Line)
    requires IsLine(l) && KeyFits(l.key, lines == [])
    ensures Scan(if lines == [] then Leading(lead) else AfterLine(lead, lines), Print(l))
            == Some(AfterLine(lead, lines + [l]))
  {
    var p := if lines == [] then Leading(lead) else AfterLine(lead, lines);
    var tail := l.key[1..] + (": " + (l.value + "\r\n"));
    ScanOne(p, l.key[0]);
    assert [l.key[0]] == l.key[..1];
    ScansLineTail(lead, lines, l);
    ScanConcat(p, [l.key[0]], tail);
    assert [l.key[0]] + tail == Print(l);
  }

  lemma {:induction false} ScansLines(lead: string, lines: seq<Line>)
    requires AreLines(lines)
    ensures Scan(Leading(lead), PrintAll(lines))
            == Some(if lines == [] then Leading(lead) else AfterLine(lead, lines))
    decreases |lines|
  {
    if lines != [] {
      var init, l := lines[..|lines| - 1], lines[|lines| - 1];
      ScansLines(lead, init);
      ScansLine(lead, init, l);
      ScanConcat(Leading(lead), PrintAll(init), Print(l));
      assert init + [l] == lines;
    }
  }

  /** Printing then parsing is the identity: a printed block, whatever follows it, is
      accepted with exactly its lines. */
  lemma PrintThenParse(lead: string, lines: seq<Line>, rest: string)
    requires IsBlock(lead, lines)
    ensures Scan(Begin, Block(lead, lines) + rest) == Some(Complete(lead, lines))
  {
    ScansLead("", lead);
    assert "" + lead == lead;
    ScansLines(lead, lines);
    ScanTwo(AfterLine(lead, lines), '\r', '\n');
    assert "\r\n" == ['\r', '\n'];
    ScanConcat(Begin, lead, PrintAll(lines));
    ScanConcat(Begin, lead + PrintAll(lines), "\r\n");
    ScanConcat(Begin, Block(lead, lines), rest);
    ScanFinal(Complete(lead, lines), rest);
  }

  // ---------------------------------------------------------------- a key that looks like leading material

  lemma LeadGrows(p: Progress, c: char)
    requires Step(p, c).Some?
    ensures p.lead <= Step(p, c).value.lead
    ensures !p.Leading? ==> Step(p, c).value.lead == p.lead
  {
  }

  lemma {:induction false} LeadKept(p: Progress, s: string)
    requires Scan(p, s).Some?
    ensures p.lead <= Scan(p, s).value.lead
    decreases |s|
  {
    if s != "" {
      LeadGrows(p, s[0]);
      LeadKept(Step(p, s[0]).value, s[1..]);
    }
  }

  lemma BlockStarts(lines: seq<Line>, rest: string)
    requires lines != [] && lines[0].key != ""
    ensures var s := Block("\n", lines) + rest; |s| >= 2 && s[0] == '\n' && s[1] == lines[0].key[0]
    decreases |lines|
  {
    assert Block("\n", lines) + rest == "\n" + (PrintAll(lines) + ("\r\n" + rest)) by {
      assert Block("\n", lines) == "\n" + (PrintAll(lines) + "\r\n");
      assert PrintAll(lines) + "\r\n" + rest == PrintAll(lines) + ("\r\n" + rest);
    }
    PrintStarts(lines);
  }

  lemma {:induction false} PrintStarts(lines: seq<Line>)
    requires lines != [] && lines[0].key != ""
    ensures PrintAll(lines) != "" && PrintAll(lines)[0] == lines[0].key[0]
    decreases |lines|
  {
    if |lines| == 1 {
      assert PrintAll(lines[..0]) == "";
      assert PrintAll(lines) == Print(lines[0]);
    } else {
      PrintStarts(lines[..|lines| - 1]);
    }
  }

  /** Printing then parsing is the identity exactly when the first key does not start with LF
      or the letter r, for whatever else the lines hold. */
  lemma FirstKeySurvives(lines: seq<Line>, rest: string)
    requires lines != [] && IsLine(lines[0]) && forall i :: 0 <= i < |lines| ==> IsLine(lines[i])
    requires forall i :: 1 <= i < |lines| ==> KeyFits(lines[i].key, false)
    ensures Scan(Begin, Block("\n", lines) + rest) == Some(Complete("\n", lines)) <==> !IsLead(lines[0].key[0])
  {
    var s, c := Block("\n", lines) + rest, lines[0].key[0];
    if !IsLead(c) {
      PrintThenParse("\n", lines, rest);
    } else {
      BlockStarts(lines, rest);
      ScanConcat(Begin, s[..2], s[2..]);
      assert s == s[..2] + s[2..] && s[..2] == ['\n', c];
      ScanTwo(Begin, '\n', c);
      if Scan(Begin, s).Some? {
        LeadKept(Leading("" + ['\n'] + [c]), s[2..]);
      }
    }
  }

  /** What becomes of it: the leading letters of the first key are taken off. */
  lemma FirstKeyShortened(eaten: string, l: Line, lines: seq<Line>, rest: string)
    requires IsLeading(eaten) && AreLines([l] + lines)
    ensures Scan(Begin, Block("\n", [Line(eaten + l.key, l.value)] + lines) + rest)
            == Some(Complete("\n" + eaten, [l] + lines))
  {
    PrintThenParse("\n" + eaten, [l] + lines, rest);
    assert Block("\n", [Line(eaten + l.key, l.value)] + lines) == Block("\n" + eaten, [l] + lines) by {
      PrintConcat([Line(eaten + l.key, l.value)], lines);
      PrintConcat([l], lines);
      PrintOne(l);
      PrintOne(Line(eaten + l.key, l.value));
      LongerKey(eaten, l);
      MoveLead("\n", eaten, Print(l), PrintAll(lines), "\r\n");
    }
  }

  lemma LongerKey(eaten: string, l: Line)
    ensures Print(Line(eaten + l.key, l.value)) == eaten + Print(l)
  {
    MoveKey(eaten, l.key, ": ", l.value, "\r\n");
  }

  lemma MoveKey(e: string, k: string, a: string, v: string, b: string)
    ensures (e + k) + a + v + b == e + (k + a + v + b)
  {
  }

  lemma MoveLead(x: string, e: string, p: string, q: string, y: string)
    ensures x + ((e + p) + q) + y == (x + e) + (p + q) + y
  {
  }

  lemma PrintOne(l: Line)
    ensures PrintAll([l]) == Print(l)
  {
    assert [l][..0] == [] && PrintAll([]) == "";
  }

  lemma Regroup(a: string, b: string, c: string)
    ensures a + b + c == a + (b + c)
  {
  }

  lemma {:induction false} PrintConcat(a: seq<Line>, b: seq<Line>)
    ensures PrintAll(a + b) == PrintAll(a) + PrintAll(b)
    decreases |b|
  {
    if b == [] {
      assert a + b == a;
    } else {
      var n := |b| - 1;
      assert (a + b)[..|a + b| - 1] == a + b[..n];
      PrintConcat(a, b[..n]);
      Regroup(PrintAll(a), PrintAll(b[..n]), Print(b[n]));
    }
  }

  /** A header named range is stored as ange. */
  lemma RangeBecomesAnge(rest: string)
    ensures Scan(Begin, Block("\n", [Line("range", "bytes=0-")]) + rest)
            == Some(Complete("\nr", [Line("ange", "bytes=0-")]))
  {
    var l := Line("ange", "bytes=0-");
    assert "r" + l.key == "range" && "\n" + "r" == "\nr";
    assert [l] + [] == [l] && [Line("range", "bytes=0-")] + [] == [Line("range", "bytes=0-")];
    FirstKeyShortened("r", l, [], rest);
  }

  /** The first character that ends a key. */
  function KeyEnd(s: string): (i: nat)
    ensures i <= |s| && forall k :: 0 <= k < i ==> s[k] != ':' && s[k] != '\r' && s[k] != '\n'
    ensures i < |s| ==> s[i] == ':' || s[i] == '\r' || s[i] == '\n'
  {
    if s == "" || s[0] == ':' || s[0] == '\r' || s[0] == '\n' then 0 else
    assert forall k :: 1 <= k < 1 + KeyEnd(s[1..]) ==> s[k] == s[1..][k - 1];
    1 + KeyEnd(s[1..])
  }

  /** A value that reads as a key and a value of its own: its first colon comes before any line
      break and is followed by a space. */
  predicate HoldsField(v: string) {
    var i := KeyEnd(v);
    i + 1 < |v| && v[i] == ':' && v[i + 1] == ' '
  }

  lemma SplitValue(v: string, i: nat, more: string)
    requires i <= |v|
    ensures ": " + v + more == [':'] + ((" " + v[..i]) + (v[i..] + more))
  {
    assert v == v[..i] + v[i..] && ": " == [':'] + " ";
  }

  /** With the key gone, the colon and the value are read as the beginning of a key. */
  lemma ValueAsKey(lead: string, v: string, more: string)
    requires v != ""
    ensures var i := KeyEnd(v);
            Scan(Leading(lead), ": " + v + more) == Scan(InKey(lead, [], ": " + v[..i]), v[i..] + more)
  {
    var i := KeyEnd(v);
    var rest := v[i..] + more;
    var key := " " + v[..i];
    SplitValue(v, i, more);
    ScanFirst(Leading(lead), ':', key + rest);
    ScanConcat(InKey(lead, [], ":"), key, rest);
    forall k | 0 <= k < |key| ensures key[k] != ':' && key[k] != '\r' && key[k] != '\n' {
      if k > 0 { assert key[k] == v[k - 1]; }
    }
    ScansKey(lead, [], ":", key);
    assert ":" + key == ": " + v[..i];
  }

  lemma ScanFirst(p: Progress, c: char, s: string)
    ensures Scan(p, [c] + s) == match Step(p, c) case None => None case Some(q) => Scan(q, s)
  {
    assert ([c] + s)[1..] == s;
  }

  lemma SplitField(v: string, i: nat, tail: string)
    requires i + 1 < |v| && v[i] == ':' && v[i + 1] == ' '
    ensures v[i..] + tail == [':'] + ([' '] + (v[i + 2..] + tail))
  {
    assert v[i..] == [':'] + ([' '] + v[i + 2..]);
  }

  lemma ScansColonSpace(p: Progress, s: string)
    requires p.InKey?
    ensures Scan(p, [':'] + ([' '] + s)) == Scan(AfterColon(p.lead, p.lines, p.key), s)
  {
    ScanFirst(p, ':', [' '] + s);
    ScanFirst(AfterKey(p.lead, p.lines, p.key), ' ', s);
  }

  lemma ScansBreak(q: Progress, more: string)
    requires q.InValue?
    ensures Scan(q, "\r\n" + more) == Scan(AfterLine(q.lead, q.lines + [Line(q.key, q.value)]), more)
  {
    assert "\r\n" + more == ['\r'] + (['\n'] + more);
    ScanFirst(q, '\r', ['\n'] + more);
    ScanFirst(AfterValue(q.lead, q.lines, q.key, q.value), '\n', more);
  }

  lemma ScansWholeValue(p: Progress, w: string, more: string)
    requires p.AfterColon? && IsValue(w)
    ensures Scan(p, w + ("\r\n" + more)) == Scan(AfterLine(p.lead, p.lines + [Line(p.key, w)]), more)
  {
    var tail := "\r\n" + more;
    assert w + tail == [w[0]] + (w[1..] + tail);
    ScanFirst(p, w[0], w[1..] + tail);
    ScansValue(p.lead, p.lines, p.key, [w[0]], w[1..]);
    assert [w[0]] + w[1..] == w;
    ScanConcat(InValue(p.lead, p.lines, p.key, [w[0]]), w[1..], tail);
    ScansBreak(InValue(p.lead, p.lines, p.key, w), more);
  }

  /** The rest of such a value behind its key, when there is some. */
  lemma FieldRest(p: Progress, v: string, more: string)
    requires p.InKey? && HoldsField(v) && KeyEnd(v) + 2 < |v| && IsValue(v)
    ensures Scan(p, v[KeyEnd(v)..] + ("\r\n" + more))
            == Scan(AfterLine(p.lead, p.lines + [Line(p.key, v[KeyEnd(v) + 2..])]), more)
  {
    var i := KeyEnd(v);
    SplitField(v, i, "\r\n" + more);
    ScansColonSpace(p, v[i + 2..] + ("\r\n" + more));
    ScansWholeValue(AfterColon(p.lead, p.lines, p.key), v[i + 2..], more);
  }

  lemma BreakFirst(more: string)
    ensures "" + ("\r\n" + more) == ['\r'] + ("\n" + more)
  {
    assert "\r\n" == ['\r'] + "\n";
  }

  /** When the value ends with that colon and space, its line break becomes the beginning of
      a value that goes on in the next line. */
  lemma FieldSwallows(p: Progress, v: string, more: string)
    requires p.InKey? && HoldsField(v) && KeyEnd(v) + 2 == |v|
    ensures Scan(p, v[KeyEnd(v)..] + ("\r\n" + more)) == Scan(InValue(p.lead, p.lines, p.key, "\r"), "\n" + more)
  {
    var i := KeyEnd(v);
    SplitField(v, i, "\r\n" + more);
    assert v[i + 2..] == "";
    BreakFirst(more);
    ScansColonSpace(p, ['\r'] + ("\n" + more));
    ScanFirst(AfterColon(p.lead, p.lines, p.key), '\r', "\n" + more);
  }

  lemma NoField(p: Progress, v: string, more: string)
    requires p.InKey? && !HoldsField(v)
    ensures Scan(p, v[KeyEnd(v)..] + ("\r\n" + more)) == None
  {
    var i := KeyEnd(v);
    var s := v[i..] + ("\r\n" + more);
    assert s[0] == if i < |v| then v[i] else '\r';
    if s[0] == ':' {
      assert s == [':'] + s[1..] && s[1] == if i + 1 < |v| then v[i + 1] else '\r';
      ScanFirst(p, ':', s[1..]);
      assert s[1..] == [s[1]] + s[2..];
      ScanFirst(AfterKey(p.lead, p.lines, p.key), s[1], s[2..]);
    }
  }

  /** A first key of leading characters alone is eaten whole, and its value decides. If it
      holds no field, the block is refused. If it does, what follows the colon and space is
      stored under what precedes them, with a colon and a space in front; and if nothing
      follows, the value runs on into the next line. */
  lemma KeyEatenWhole(eaten: string, v: string, more: string)
    requires IsLeading(eaten) && IsValue(v)
    ensures var i := KeyEnd(v); var lead := "\n" + eaten; var key := ": " + v[..i];
            Scan(Begin, "\n" + (eaten + ": " + v + "\r\n") + more)
            == if !HoldsField(v) then None
               else if i + 2 < |v| then Scan(AfterLine(lead, [Line(key, v[i + 2..])]), more)
               else Scan(InValue(lead, [], key, "\r"), "\n" + more)
  {
    var i := KeyEnd(v);
    var lead := "\n" + eaten;
    MoveEaten("\n", eaten, ": ", v, "\r\n", more);
    ScanConcat(Begin, lead, ": " + v + ("\r\n" + more));
    ScansLead("", lead);
    assert "" + lead == lead;
    ValueAsKey(lead, v, "\r\n" + more);
    var p := InKey(lead, [], ": " + v[..i]);
    if !HoldsField(v) {
      NoField(p, v, more);
    } else if i + 2 < |v| {
      FieldRest(p, v, more);
      assert [] + [Line(": " + v[..i], v[i + 2..])] == [Line(": " + v[..i], v[i + 2..])];
    } else {
      FieldSwallows(p, v, more);
    }
  }

  lemma MoveEaten(x: string, e: string, a: string, v: string, b: string, c: string)
    ensures x + (e + a + v + b) + c == (x + e) + (a + v + (b + c))
  {
  }

  /** So for a whole block whose first key is eaten: it is refused when the value holds no
      field; with a field in it, something behind it, and proper lines after, it is stored
      with that field for its first line. */
  lemma EatenBlock(eaten: string, v: string, lines: seq<Line>, rest: string)
    requires IsLeading(eaten) && IsValue(v)
    requires forall i :: 0 <= i < |lines| ==> IsLine(lines[i]) && KeyFits(lines[i].key, false)
    ensures var r := Scan(Begin, Block("\n", [Line(eaten, v)] + lines) + rest); var i := KeyEnd(v);
            && (!HoldsField(v) ==> r == None)
            && (HoldsField(v) && i + 2 < |v| ==>
                  r == Some(Complete("\n" + eaten, [Line(": " + v[..i], v[i + 2..])] + lines)))
  {
    var l := Line(eaten, v);
    var more := PrintAll(lines) + "\r\n" + rest;
    PrintConcat([l], lines);
    PrintOne(l);
    assert Block("\n", [l] + lines) + rest == "\n" + Print(l) + more by {
      MoveTail("\n", Print(l), PrintAll(lines), "\r\n", rest);
    }
    KeyEatenWhole(eaten, v, more);
    if HoldsField(v) && KeyEnd(v) + 2 < |v| {
      var first := Line(": " + v[..KeyEnd(v)], v[KeyEnd(v) + 2..]);
      LinesThenEnd("\n" + eaten, first, lines, rest);
    }
  }

  lemma MoveTail(x: string, p: string, q: string, y: string, r: string)
    ensures x + (p + q) + y + r == x + p + (q + y + r)
  {
  }

  /** Proper lines and a blank line behind a first line that has been read. */
  lemma {:induction false} LinesAfter(lead: string, before: seq<Line>, lines: seq<Line>)
    requires before != []
    requires forall i :: 0 <= i < |lines| ==> IsLine(lines[i]) && KeyFits(lines[i].key, false)
    ensures Scan(AfterLine(lead, before), PrintAll(lines)) == Some(AfterLine(lead, before + lines))
    decreases |lines|
  {
    if lines == [] {
      assert before + lines == before;
    } else {
      var n := |lines| - 1;
      LinesAfter(lead, before, lines[..n]);
      ScansLine(lead, before + lines[..n], lines[n]);
      ScanConcat(AfterLine(lead, before), PrintAll(lines[..n]), Print(lines[n]));
      assert before + lines[..n] + [lines[n]] == before + lines;
    }
  }

  lemma LinesThenEnd(lead: string, first: Line, lines: seq<Line>, rest: string)
    requires forall i :: 0 <= i < |lines| ==> IsLine(lines[i]) && KeyFits(lines[i].key, false)
    ensures Scan(AfterLine(lead, [first]), PrintAll(lines) + "\r\n" + rest)
            == Some(Complete(lead, [first] + lines))
  {
    LinesAfter(lead, [first], lines);
    var p := AfterLine(lead, [first] + lines);
    assert PrintAll(lines) + "\r\n" + rest == PrintAll(lines) + (['\r', '\n'] + rest);
    ScanConcat(AfterLine(lead, [first]), PrintAll(lines), ['\r', '\n'] + rest);
    ScanConcat(p, ['\r', '\n'], rest);
    ScanTwo(p, '\r', '\n');
    ScanFinal(Complete(lead, [first] + lines), rest);
  }

  /** A first header named r is refused. */
  lemma KeyRIsRefused(rest: string)
    ensures Judge(Block("\n", [Line("r", "x")]) + rest) == Error
  {
    assert [Line("r", "x")] + [] == [Line("r", "x")];
    EatenBlock("r", "x", [], rest);
  }

  // ---------------------------------------------------------------- the verdicts

  /** SUCCESS: exactly the buffers with a header block in front. */
  lemma SuccessMeansBlock(s: string)
    ensures Judge(s) == Success <==> exists lead, lines :: IsBlock(lead, lines) && Block(lead, lines) <= s
  {
    var r := Scan(Begin, s);
    if Judge(s) == Success {
      ScanText(Begin, s);
      assert "" + s == s;
      assert IsBlock(r.value.lead, r.value.lines) && Block(r.value.lead, r.value.lines) <= s;
    }
    if lead, lines :| IsBlock(lead, lines) && Block(lead, lines) <= s {
      PrintThenParse(lead, lines, s[|Block(lead, lines)|..]);
      assert Block(lead, lines) + s[|Block(lead, lines)|..] == s;
    }
  }

  /** Some continuation completes any scan that has not failed. */
  function Completion(p: Progress): string {
    match p
    case Leading(_) => "k: v\r\n\r\n"
    case InKey(_, _, _) => ": v\r\n\r\n"
    case AfterKey(_, _, _) => " v\r\n\r\n"
    case AfterColon(_, _, _) => "v\r\n\r\n"
    case InValue(_, _, _, _) => "\r\n\r\n"
    case AfterValue(_, _, _, _) => "\n\r\n"
    case AfterLine(_, _) => "\r\n"
    case Ending(_, _) => "\n"
    case Complete(_, _) => ""
  }

  lemma {:induction false} Completes(p: Progress)
    ensures VerdictOf(Scan(p, Completion(p))) == Success
    decreases |Completion(p)|
  {
    if !p.Complete? {
      var c := Completion(p);
      var q := Step(p, c[0]).value;
      assert c[1..] == Completion(q);
      Completes(q);
    }
  }

  /** ERROR: exactly when no extension of the buffer can succeed. AGAIN: exactly when the
      buffer has not succeeded but some extension does. */
  lemma VerdictsOnExtensions(s: string)
    ensures Judge(s) == Error <==> forall ext :: Judge(s + ext) != Success
    ensures Judge(s) == Again <==> Judge(s) != Success && exists ext :: Judge(s + ext) == Success
  {
    var r := Scan(Begin, s);
    if r.None? {
      forall ext ensures Judge(s + ext) != Success { ScanConcat(Begin, s, ext); }
    } else {
      Completes(r.value);
      ScanConcat(Begin, s, Completion(r.value));
      assert Judge(s + Completion(r.value)) == Success;
    }
  }

  // ---------------------------------------------------------------- the header map

  /** headers_ after the given lines were stored into it. */
  function Stored(headers: map<string, string>, lines: seq<Line>): map<string, string> {
    if lines == [] then headers
    else Stored(headers, lines[..|lines| - 1])[lines[|lines| - 1].key := lines[|lines| - 1].value]
  }

  /** Line i is the last with its key. */
  predicate LastWithKey(lines: seq<Line>, i: nat) {
    i < |lines| && forall j :: i < j < |lines| ==> lines[j].key != lines[i].key
  }

  lemma {:induction false} LastStored(headers: map<string, string>, lines: seq<Line>, i: nat)
    requires LastWithKey(lines, i)
    ensures lines[i].key in Stored(headers, lines) && Stored(headers, lines)[lines[i].key] == lines[i].value
    decreases |lines|
  {
    var n := |lines| - 1;
    if i < n {
      assert lines[n].key != lines[i].key;
      LastStored(headers, lines[..n], i);
    }
  }

  lemma {:induction false} NoneStored(headers: map<string, string>, lines: seq<Line>, key: string)
    requires forall i :: 0 <= i < |lines| ==> lines[i].key != key
    ensures key in Stored(headers, lines) <==> key in headers
    ensures key in headers ==> Stored(headers, lines)[key] == headers[key]
  {
    if lines != [] { NoneStored(headers, lines[..|lines| - 1], key); }
  }

  /** The last line with a key wins; other keys keep what the map had. */
  lemma LastWins(headers: map<string, string>, lines: seq<Line>, key: string)
    ensures forall i: nat :: LastWithKey(lines, i) && lines[i].key == key ==>
              key in Stored(headers, lines) && Stored(headers, lines)[key] == lines[i].value
    ensures (forall i :: 0 <= i < |lines| ==> lines[i].key != key) ==>
              (key in Stored(headers, lines) <==> key in headers)
              && (key in headers ==> Stored(headers, lines)[key] == headers[key])
  {
    forall i: nat | LastWithKey(lines, i) && lines[i].key == key
      ensures key in Stored(headers, lines) && Stored(headers, lines)[key] == lines[i].value
    {
      LastStored(headers, lines, i);
    }
    if forall i :: 0 <= i < |lines| ==> lines[i].key != key { NoneStored(headers, lines, key); }
  }
}
