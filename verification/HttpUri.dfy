/** The request-line parser of HttpData.cpp as written: std::string::find with its npos in
    64-bit unsigned arithmetic, including the comparisons with 0 that never hold. */
module HttpUri {
  import opened Prelude

  const TWO64: nat := 0x1_0000_0000_0000_0000
  const NPOS: nat := TWO64 - 1
  /** Lines below this length, so that an index converts to int unchanged. */
  const MAX_BUFFER: nat := 0x7FFF_FFFF

  function U64(x: int): nat {
    x % TWO64
  }

  predicate OccursAt(s: string, pat: string, i: nat) {
    i + |pat| <= |s| && s[i..i + |pat|] == pat
  }

  /** std::string::find. */
  function Find(s: string, pat: string, from: nat): (r: nat)
    requires |s| < MAX_BUFFER
    ensures r == NPOS || (from <= r && OccursAt(s, pat, r))
    ensures forall i: nat :: from <= i && OccursAt(s, pat, i) ==> r <= i
    decreases |s| - from
  {
    if from + |pat| > |s| then NPOS
    else if s[from..from + |pat|] == pat then from
    else Find(s, pat, from + 1)
  }

  lemma FindIs(s: string, pat: string, from: nat, at: nat)
    requires |s| < MAX_BUFFER && from <= at && OccursAt(s, pat, at)
    requires forall i: nat :: from <= i < at ==> !OccursAt(s, pat, i)
    ensures Find(s, pat, from) == at
  {
  }

  /** find of a single character: the first place it stands at. */
  lemma FindChar(s: string, pat: string, from: nat, at: nat)
    requires |pat| == 1 && |s| < MAX_BUFFER && from <= at < |s| && s[at] == pat[0]
    requires forall i :: from <= i < at ==> s[i] != pat[0]
    ensures Find(s, pat, from) == at
  {
    assert s[at..at + 1] == pat;
    forall i: nat | from <= i < at ensures !OccursAt(s, pat, i) {
      assert s[i..i + 1][0] == s[i];
    }
    FindIs(s, pat, from, at);
  }

  lemma OccursChar(s: string, pat: string, i: nat)
    requires |pat| == 1 && i < |s|
    ensures OccursAt(s, pat, i) <==> s[i] == pat[0]
  {
    assert s[i..i + 1] == [s[i]] && pat == [pat[0]];
  }

  lemma FindCharNone(s: string, pat: string, from: nat)
    requires |pat| == 1 && |s| < MAX_BUFFER
    requires forall i :: from <= i < |s| ==> s[i] != pat[0]
    ensures Find(s, pat, from) == NPOS
  {
    var r := Find(s, pat, from);
    if r < |s| { OccursChar(s, pat, r); }
  }

  /** std::string::substr for a position inside the string. */
  function Substr(s: string, pos: nat, n: nat): string
    requires pos <= |s|
  {
    if n >= |s| - pos then s[pos..] else s[pos..pos + n]
  }

  datatype Method = Get | Post | Head
  datatype Version = Http10 | Http11
  datatype UriVerdict = UriAgain | UriError | UriSuccess

  /** The members parse_URI works on. */
  datatype Request = Request(buffer: string, verb: Method, version: Version, file: string)

  function Name(m: Method): string {
    match m case Get => "GET" case Post => "POST" case Head => "HEAD"
  }

  function VersionText(v: Version): string {
    match v case Http10 => "1.0" case Http11 => "1.1"
  }

  /** The first name, in the order GET, POST, HEAD, that occurs anywhere in the line. */
  function FindMethod(line: string): Option<(Method, nat)>
    requires |line| < MAX_BUFFER
  {
    if Find(line, "GET", 0) != NPOS then Some((Get, Find(line, "GET", 0)))
    else if Find(line, "POST", 0) != NPOS then Some((Post, Find(line, "POST", 0)))
    else if Find(line, "HEAD", 0) != NPOS then Some((Head, Find(line, "HEAD", 0)))
    else None
  }

  function CutQuery(s: string): string
    requires |s| < MAX_BUFFER
  {
    Substr(s, 0, Find(s, "?", 0))
  }

  /** The file name taken from between a slash and the space after it. */
  function FileBetween(line: string, slash: nat, space: nat): string
    requires |line| < MAX_BUFFER && (slash < |line| || slash == NPOS) && (space < |line| || space == NPOS)
    requires slash == NPOS ==> space == NPOS
    requires slash <= space
  {
    if U64(space - slash) > 1 then CutQuery(Substr(line, slash + 1, U64(space - slash - 1))) else "index.html"
  }

  /** The version read after the slash at the given position, which npos turns into the
      start of the line. */
  function VersionAt(line: string, slash: nat): Option<Version>
    requires |line| < MAX_BUFFER && (slash < |line| || slash == NPOS)
  {
    if U64(|line| - slash) <= 3 then None
    else
      var text := Substr(line, U64(slash + 1), 3);
      if text == "1.0" then Some(Http10) else if text == "1.1" then Some(Http11) else None
  }

  /** What the parser makes of a line once it is cut off. */
  function ParseLine(line: string, r1: Request): (UriVerdict, Request)
    requires |line| < MAX_BUFFER
  {
    match FindMethod(line)
    case None => (UriError, r1)
    case Some((m, at)) =>
      var slash := Find(line, "/", at);
      var space := Find(line, " ", slash);
      var r2 := r1.(verb := m, file := FileBetween(line, slash, space));
      match VersionAt(line, Find(line, "/", space))
      case None => (UriError, r2)
      case Some(v) => (UriSuccess, r2.(version := v))
  }

  /** parse_URI. It never returns AGAIN. */
  function ParseUri(r: Request): (UriVerdict, Request)
    requires |r.buffer| < MAX_BUFFER
  {
    var cr := Find(r.buffer, "\r", 0);
    var line := Substr(r.buffer, 0, cr);
    var next := U64(cr + 1);
    var r1 := r.(buffer := if |r.buffer| > next then r.buffer[next..] else "");
    ParseLine(line, r1)
  }

  // ---------------------------------------------------------------- any line at all

  /** The first place pat occurs at, from a place on; from nowhere on it occurs nowhere. */
  ghost predicate FirstFrom(s: string, pat: string, from: Option<nat>, at: Option<nat>) {
    if from.None? then at.None? else
    match at
    case None => forall i: nat :: from.value <= i ==> !OccursAt(s, pat, i)
    case Some(k) =>
      from.value <= k && OccursAt(s, pat, k) && forall i: nat :: from.value <= i < k ==> !OccursAt(s, pat, i)
  }

  function Place(found: nat): Option<nat> {
    if found == NPOS then None else Some(found)
  }

  lemma FindIsFirst(s: string, pat: string, from: nat)
    requires |s| < MAX_BUFFER && from <= NPOS && pat != ""
    ensures FirstFrom(s, pat, Place(from), Place(Find(s, pat, from)))
  {
  }

  /** What is in front of the first CR and behind it; without a CR the line is the whole buffer,
      which stays. */
  ghost predicate IsCut(buffer: string, line: string, rest: string) {
    Free(line, '\r') && (buffer == line + "\r" + rest || (buffer == line == rest))
  }

  lemma CutIsFirst(buffer: string, line: string, rest: string)
    requires IsCut(buffer, line, rest)
    ensures |line| <= |buffer| && Free(buffer[..|line|], '\r') && (|line| < |buffer| ==> buffer[|line|] == '\r')
    ensures line == buffer[..|line|] && rest == if |line| < |buffer| then buffer[|line| + 1..] else buffer
  {
  }

  /** There is only one way to cut. */
  lemma SameCut(buffer: string, line: string, rest: string, line': string, rest': string)
    requires IsCut(buffer, line, rest) && IsCut(buffer, line', rest')
    ensures line == line' && rest == rest'
  {
    CutIsFirst(buffer, line, rest);
    CutIsFirst(buffer, line', rest');
  }

  ghost predicate Occurs(line: string, m: Method) {
    exists i: nat :: OccursAt(line, Name(m), i)
  }

  /** The method taken from a line: of GET, POST and HEAD the first, in this order, to occur. */
  ghost predicate IsVerb(line: string, verb: Option<Method>) {
    match verb
    case None => !Occurs(line, Get) && !Occurs(line, Post) && !Occurs(line, Head)
    case Some(Get) => Occurs(line, Get)
    case Some(Post) => Occurs(line, Post) && !Occurs(line, Get)
    case Some(Head) => Occurs(line, Head) && !Occurs(line, Get) && !Occurs(line, Post)
  }

  /** Text up to its first question mark. */
  predicate UpToQuery(text: string, part: string) {
    part <= text && Free(part, '?') && (|part| < |text| ==> text[|part|] == '?')
  }

  /** The file name: what lies between the slash and the space, or behind the slash when there
      is no space, up to the question mark; index.html when there is no slash or nothing in
      between. */
  predicate IsFile(line: string, slash: Option<nat>, space: Option<nat>, file: string) {
    if slash.None? then file == "index.html"
    else if space.None? then slash.value < |line| && UpToQuery(line[slash.value + 1..], file)
    else if space.value <= slash.value + 1 then file == "index.html"
    else space.value <= |line| && UpToQuery(line[slash.value + 1..space.value], file)
  }

  /** The text the version must begin: behind the second slash, or the line itself when there is
      none. */
  function VersionPart(line: string, slash: Option<nat>): string {
    if slash.None? then line else if slash.value < |line| then line[slash.value + 1..] else ""
  }

  lemma OccursWhenFound(line: string, m: Method)
    requires |line| < MAX_BUFFER
    ensures Occurs(line, m) <==> Find(line, Name(m), 0) != NPOS
  {
    var at := Find(line, Name(m), 0);
    if at != NPOS { assert OccursAt(line, Name(m), at); }
  }

  lemma FindMethodIs(line: string) returns (verb: Option<Method>)
    requires |line| < MAX_BUFFER
    ensures IsVerb(line, verb) && (verb.None? <==> FindMethod(line).None?)
    ensures verb.Some? ==>
              FindMethod(line).value.0 == verb.value && FindMethod(line).value.1 < |line|
              && FirstFrom(line, Name(verb.value), Some(0), Some(FindMethod(line).value.1))
  {
    OccursWhenFound(line, Get);
    OccursWhenFound(line, Post);
    OccursWhenFound(line, Head);
    FindIsFirst(line, "GET", 0);
    FindIsFirst(line, "POST", 0);
    FindIsFirst(line, "HEAD", 0);
    verb := if FindMethod(line).None? then None else Some(FindMethod(line).value.0);
  }

  lemma CutQueryIs(s: string)
    requires |s| < MAX_BUFFER
    ensures UpToQuery(s, CutQuery(s))
  {
    FindIsFirst(s, "?", 0);
    var part := CutQuery(s);
    var at := Find(s, "?", 0);
    if at != NPOS { OccursChar(s, "?", at); }
    forall i | 0 <= i < |part| ensures part[i] != '?' {
      OccursChar(s, "?", i);
    }
  }

  lemma FileText(line: string, slash: nat, space: nat)
    requires slash < |line| < MAX_BUFFER && (slash <= space < |line| || space == NPOS)
    ensures U64(space - slash) > 1 <==> space > slash + 1
    ensures space > slash + 1 ==>
              Substr(line, slash + 1, U64(space - slash - 1))
              == if space == NPOS then line[slash + 1..] else line[slash + 1..space]
  {
    assert U64(space - slash) == space - slash;
    if space > slash + 1 { assert U64(space - slash - 1) == space - slash - 1; }
  }

  lemma FileIs(line: string, slash: nat, space: nat)
    requires |line| < MAX_BUFFER && (slash < |line| || slash == NPOS) && (space < |line| || space == NPOS)
    requires (slash == NPOS ==> space == NPOS) && slash <= space
    ensures IsFile(line, Place(slash), Place(space), FileBetween(line, slash, space))
  {
    if slash < |line| {
      FileText(line, slash, space);
      if space > slash + 1 { CutQueryIs(Substr(line, slash + 1, U64(space - slash - 1))); }
    }
  }

  lemma VersionChars(line: string, slash: nat)
    requires |line| < MAX_BUFFER && (slash < |line| || slash == NPOS)
    ensures var part := VersionPart(line, Place(slash));
            && (U64(|line| - slash) > 3 <==> |part| >= 3)
            && (|part| >= 3 ==> U64(slash + 1) <= |line| && Substr(line, U64(slash + 1), 3) == part[..3])
  {
    if slash == NPOS {
      assert U64(|line| - slash) == |line| + 1 && U64(slash + 1) == 0;
    } else {
      assert U64(|line| - slash) == |line| - slash && U64(slash + 1) == slash + 1;
    }
  }

  lemma PrefixIsSlice(text: string, part: string)
    ensures text <= part <==> |text| <= |part| && part[..|text|] == text
  {
  }

  lemma VersionIs(line: string, slash: nat, v: Version)
    requires |line| < MAX_BUFFER && (slash < |line| || slash == NPOS)
    ensures VersionAt(line, slash) == Some(v) <==> VersionText(v) <= VersionPart(line, Place(slash))
  {
    VersionChars(line, slash);
    PrefixIsSlice(VersionText(v), VersionPart(line, Place(slash)));
    assert VersionText(Http10)[2] != VersionText(Http11)[2];
  }

  lemma LineCut(r: Request) returns (line: string, rest: string)
    requires |r.buffer| < MAX_BUFFER
    ensures IsCut(r.buffer, line, rest) && |line| < MAX_BUFFER && ParseUri(r) == ParseLine(line, r.(buffer := rest))
  {
    var cr := Find(r.buffer, "\r", 0);
    FindIsFirst(r.buffer, "\r", 0);
    line := Substr(r.buffer, 0, cr);
    forall i | 0 <= i < |line| ensures line[i] != '\r' {
      OccursChar(r.buffer, "\r", i);
    }
    if cr == NPOS {
      rest := r.buffer;
      assert U64(cr + 1) == 0 && r.buffer[0..] == r.buffer;
    } else {
      rest := r.buffer[cr + 1..];
      OccursChar(r.buffer, "\r", cr);
      assert U64(cr + 1) == cr + 1;
    }
  }

  /** The places parse_URI looks at in a line, each the first behind the one before. */
  ghost predicate Places(line: string, at: nat, slash: Option<nat>, space: Option<nat>, second: Option<nat>) {
    FirstFrom(line, "/", Some(at), slash) && FirstFrom(line, " ", slash, space) && FirstFrom(line, "/", space, second)
  }

  /** The verdict on a line with a method in it. */
  lemma LineVerdict(line: string, r1: Request, m: Method, at: nat)
    returns (slash: Option<nat>, space: Option<nat>, second: Option<nat>)
    requires |line| < MAX_BUFFER && FindMethod(line) == Some((m, at)) && at < |line|
    ensures Places(line, at, slash, space, second)
    ensures var (verdict, q) := ParseLine(line, r1); var text := VersionPart(line, second);
            && q.buffer == r1.buffer && q.verb == m && IsFile(line, slash, space, q.file)
            && (verdict == UriSuccess <==> "1.0" <= text || "1.1" <= text)
            && (verdict == UriError <==> verdict != UriSuccess)
            && q.version == if "1.0" <= text then Http10 else if "1.1" <= text then Http11 else r1.version
  {
    var sl := Find(line, "/", at);
    var sp := Find(line, " ", sl);
    var se := Find(line, "/", sp);
    FindIsFirst(line, "/", at);
    FindIsFirst(line, " ", sl);
    FindIsFirst(line, "/", sp);
    slash, space, second := Place(sl), Place(sp), Place(se);
    FileIs(line, sl, sp);
    VersionIs(line, se, Http10);
    VersionIs(line, se, Http11);
  }

  /** parse_URI on any bytes at all. The line is what stands in front of the first CR. With none of
      the three names in it the verdict is ERROR and nothing but the buffer changes. Otherwise
      the method is the first of the names to occur; from its first place on the slash, the
      space and the second slash are looked for, each behind the one before; the verdict is
      SUCCESS exactly when 1.0 or 1.1 follows the second slash (or begins the line, when there
      is none), and ERROR otherwise; and the file name is what lies between slash and space. */
  lemma AnyBytes(r: Request)
    returns (line: string, verb: Option<Method>, at: nat, slash: Option<nat>, space: Option<nat>, second: Option<nat>)
    requires |r.buffer| < MAX_BUFFER
    ensures IsCut(r.buffer, line, ParseUri(r).1.buffer) && IsVerb(line, verb)
    ensures verb.None? ==> ParseUri(r) == (UriError, r.(buffer := ParseUri(r).1.buffer))
    ensures verb.Some? ==>
              var (verdict, q) := ParseUri(r); var text := VersionPart(line, second);
              && FirstFrom(line, Name(verb.value), Some(0), Some(at)) && Places(line, at, slash, space, second)
              && q.verb == verb.value && IsFile(line, slash, space, q.file)
              && verdict == (if "1.0" <= text || "1.1" <= text then UriSuccess else UriError)
              && q.version == if "1.0" <= text then Http10 else if "1.1" <= text then Http11 else r.version
  {
    var rest;
    line, rest := LineCut(r);
    verb := FindMethodIs(line);
    at, slash, space, second := 0, None, None, None;
    if verb.Some? {
      at := FindMethod(line).value.1;
      slash, space, second := LineVerdict(line, r.(buffer := rest), verb.value, at);
    }
  }

  // ---------------------------------------------------------------- well-formed lines

  predicate Free(s: string, c: char) {
    forall i :: 0 <= i < |s| ==> s[i] != c
  }

  /** Path and optional query, without the leading slash. */
  predicate IsTarget(t: string) {
    Free(t, ' ') && Free(t, '\r')
  }

  function RequestLine(m: Method, target: string, v: Version): string {
    Name(m) + " /" + target + " HTTP/" + VersionText(v)
  }

  function FileOf(target: string): string
    requires |target| < MAX_BUFFER
  {
    if target == "" then "index.html" else CutQuery(target)
  }

  /** CutQuery stops before the first question mark. */
  lemma CutQueryIsPath(path: string, query: string)
    requires |path| + 1 + |query| < MAX_BUFFER && Free(path, '?')
    ensures CutQuery(path) == path && CutQuery(path + "?" + query) == path
  {
    FindCharNone(path, "?", 0);
    FindChar(path + "?" + query, "?", 0, |path|);
  }

  /** A name tried earlier than m occurs somewhere in the line. */
  predicate EarlierName(m: Method, line: string)
    requires |line| < MAX_BUFFER
  {
    (m != Get && Find(line, "GET", 0) != NPOS) || (m == Head && Find(line, "POST", 0) != NPOS)
  }

  lemma NameInFront(m: Method, line: string)
    requires |line| < MAX_BUFFER && OccursAt(line, Name(m), 0)
    ensures FindMethod(line).Some?
    ensures FindMethod(line).value.0 == m <==> !EarlierName(m, line)
    ensures !EarlierName(m, line) ==> FindMethod(line).value.1 == 0
  {
    FindIs(line, Name(m), 0, 0);
  }

  /** Where the pieces of a request line lie. */
  predicate Shaped(line: string, m: Method, target: string, v: Version) {
    var n, sp := |Name(m)|, |Name(m)| + 2 + |target|;
    && |line| == sp + 9 < MAX_BUFFER && line[..n] == Name(m) && line[n..n + 2] == " /" && line[n + 2..sp] == target
    && line[sp..sp + 6] == " HTTP/" && line[sp + 6..] == VersionText(v)
  }

  lemma LinePieces(m: Method, target: string, v: Version)
    requires |RequestLine(m, target, v)| < MAX_BUFFER
    ensures Shaped(RequestLine(m, target, v), m, target, v)
  {
  }

  lemma NameChars(m: Method, i: nat)
    requires i < |Name(m)|
    ensures 'A' <= Name(m)[i] <= 'Z'
  {
    match m
    case Get => assert Name(m) == ['G', 'E', 'T'];
    case Post => assert Name(m) == ['P', 'O', 'S', 'T'];
    case Head => assert Name(m) == ['H', 'E', 'A', 'D'];
  }

  lemma LineSlash(line: string, m: Method, target: string, v: Version)
    requires Shaped(line, m, target, v)
    ensures Find(line, "/", 0) == |Name(m)| + 1
  {
    var n := |Name(m)|;
    forall i | 0 <= i < n + 1 ensures line[i] != '/' {
      if i < n { NameChars(m, i); assert line[i] == line[..n][i]; } else { assert line[i] == line[n..n + 2][0]; }
    }
    assert line[n + 1] == line[n..n + 2][1];
    FindChar(line, "/", 0, n + 1);
  }

  lemma LineSpace(line: string, m: Method, target: string, v: Version)
    requires Shaped(line, m, target, v) && IsTarget(target)
    ensures Find(line, " ", |Name(m)| + 1) == |Name(m)| + 2 + |target|
  {
    var n, sp := |Name(m)|, |Name(m)| + 2 + |target|;
    forall i | n + 1 <= i < sp ensures line[i] != ' ' {
      if i > n + 1 {
        assert line[i] == line[n + 2..sp][i - n - 2] == target[i - n - 2];
      } else {
        assert line[i] == line[n..n + 2][1] == " /"[1];
      }
    }
    assert line[sp] == line[sp..sp + 6][0];
    FindChar(line, " ", n + 1, sp);
  }

  lemma SlashInSlice(line: string, sp: nat)
    requires sp + 6 <= |line| && line[sp..sp + 6] == " HTTP/"
    ensures line[sp + 5] == '/' && forall i :: sp <= i < sp + 5 ==> line[i] != '/'
  {
    forall i | sp <= i < sp + 6 ensures line[i] == " HTTP/"[i - sp] {
      assert line[i] == line[sp..sp + 6][i - sp];
    }
  }

  lemma FindVersionSlash(line: string, sp: nat)
    requires sp + 6 <= |line| < MAX_BUFFER && line[sp..sp + 6] == " HTTP/"
    ensures Find(line, "/", sp) == sp + 5
  {
    SlashInSlice(line, sp);
    FindChar(line, "/", sp, sp + 5);
  }

  lemma VersionBehind(line: string, v: Version)
    requires 4 <= |line| < MAX_BUFFER && line[|line| - 3..] == VersionText(v)
    ensures VersionAt(line, |line| - 4) == Some(v)
  {
    assert U64(4) == 4 && U64(|line| - 3) == |line| - 3;
    assert Substr(line, |line| - 3, 3) == VersionText(v);
  }

  lemma LineFile(line: string, m: Method, target: string, v: Version)
    requires Shaped(line, m, target, v)
    ensures FileBetween(line, |Name(m)| + 1, |Name(m)| + 2 + |target|) == FileOf(target)
  {
    assert U64(|target| + 1) == |target| + 1 && U64(|target|) == |target|;
    assert Substr(line, |Name(m)| + 2, |target|) == target;
  }

  lemma VerbFound(line: string, m: Method, r1: Request)
    requires |line| < MAX_BUFFER && OccursAt(line, Name(m), 0)
    ensures ParseLine(line, r1).1.verb == m <==> !EarlierName(m, line)
  {
    NameInFront(m, line);
  }

  lemma ParsesFrom(line: string, m: Method, slash: nat, space: nat, ver: nat, v: Version, file: string, r1: Request)
    requires |line| < MAX_BUFFER && FindMethod(line) == Some((m, 0)) && slash <= space < |line| && ver < |line|
    requires Find(line, "/", 0) == slash && Find(line, " ", slash) == space && Find(line, "/", space) == ver
    requires VersionAt(line, ver) == Some(v) && FileBetween(line, slash, space) == file
    ensures ParseLine(line, r1) == (UriSuccess, Request(r1.buffer, m, v, file))
  {
  }

  lemma LinePlaces(line: string, m: Method, target: string, v: Version, n: nat, sp: nat)
    requires Shaped(line, m, target, v) && IsTarget(target) && n == |Name(m)| && sp == n + 2 + |target|
    ensures Find(line, "/", 0) == n + 1 && Find(line, " ", n + 1) == sp && Find(line, "/", sp) == sp + 5
    ensures sp + 9 == |line| && VersionAt(line, sp + 5) == Some(v)
  {
    assert Find(line, "/", 0) == n + 1 by { LineSlash(line, m, target, v); }
    assert Find(line, " ", n + 1) == sp by { LineSpace(line, m, target, v); }
    assert Find(line, "/", sp) == sp + 5 by { FindVersionSlash(line, sp); }
    assert VersionAt(line, |line| - 4) == Some(v) by { VersionBehind(line, v); }
  }

  lemma ShapedLineParses(line: string, m: Method, target: string, v: Version, r1: Request)
    requires Shaped(line, m, target, v) && IsTarget(target) && !EarlierName(m, line)
    ensures ParseLine(line, r1) == (UriSuccess, Request(r1.buffer, m, v, FileOf(target)))
  {
    var n, sp := |Name(m)|, |Name(m)| + 2 + |target|;
    LinePlaces(line, m, target, v, n, sp);
    LineFile(line, m, target, v);
    NameInFront(m, line);
    ParsesFrom(line, m, n + 1, sp, sp + 5, v, FileOf(target), r1);
  }

  lemma UriOnLine(line: string, rest: string, r: Request)
    requires Free(line, '\r') && |line| + 1 + |rest| < MAX_BUFFER && r.buffer == line + "\r" + rest
    ensures ParseUri(r) == ParseLine(line, r.(buffer := rest))
  {
    CutLine(line, rest, r.buffer);
  }

  /** A request line is read back as written, and the buffer continues behind its CR, when
      no method name tried earlier occurs in it; the method is recovered exactly then. */
  lemma LineRoundTrip(m: Method, target: string, v: Version, rest: string, r: Request)
    requires IsTarget(target) && |RequestLine(m, target, v)| + 1 + |rest| < MAX_BUFFER
    requires r.buffer == RequestLine(m, target, v) + "\r" + rest
    ensures var line := RequestLine(m, target, v);
            && (ParseUri(r).1.verb == m <==> !EarlierName(m, line))
            && (!EarlierName(m, line) ==> ParseUri(r) == (UriSuccess, Request(rest, m, v, FileOf(target))))
  {
    LineHasNoCr(m, target, v);
    UriOnLine(RequestLine(m, target, v), rest, r);
    LinePieces(m, target, v);
    ShapedRoundTrip(RequestLine(m, target, v), m, target, v, r.(buffer := rest));
  }

  lemma ShapedRoundTrip(line: string, m: Method, target: string, v: Version, r1: Request)
    requires Shaped(line, m, target, v) && IsTarget(target)
    ensures ParseLine(line, r1).1.verb == m <==> !EarlierName(m, line)
    ensures !EarlierName(m, line) ==> ParseLine(line, r1) == (UriSuccess, Request(r1.buffer, m, v, FileOf(target)))
  {
    VerbFound(line, m, r1);
    if !EarlierName(m, line) { ShapedLineParses(line, m, target, v, r1); }
  }

  lemma LineHasNoCr(m: Method, target: string, v: Version)
    requires IsTarget(target)
    ensures Free(RequestLine(m, target, v), '\r')
  {
    var line, n := RequestLine(m, target, v), |Name(m)|;
    forall i | 0 <= i < |line| ensures line[i] != '\r' {
      if i < n { NameChars(m, i); assert line[i] == Name(m)[i]; }
      else if i < n + 2 { assert line[i] == " /"[i - n]; }
      else if i < n + 2 + |target| { assert line[i] == target[i - n - 2]; }
      else { assert line[i] == (" HTTP/" + VersionText(v))[i - n - 2 - |target|]; }
    }
  }

  lemma CutLine(line: string, rest: string, buffer: string)
    requires Free(line, '\r') && |line| + 1 + |rest| < MAX_BUFFER && buffer == line + "\r" + rest
    ensures Find(buffer, "\r", 0) == |line| && Substr(buffer, 0, |line|) == line
    ensures U64(|line| + 1) == |line| + 1
    ensures (if |buffer| > |line| + 1 then buffer[|line| + 1..] else "") == rest
  {
    forall i | 0 <= i < |line| ensures buffer[i] != '\r' { assert buffer[i] == line[i]; }
    FindChar(buffer, "\r", 0, |line|);
  }

  // ---------------------------------------------------------------- a line in pieces

  /** The only spaces and, apart from the target, the only slashes of a request line. */
  lemma LineShape(line: string, m: Method, target: string, v: Version, i: nat)
    requires Shaped(line, m, target, v) && IsTarget(target) && i < |line|
    ensures var n, sp := |Name(m)|, |Name(m)| + 2 + |target|;
            && (line[i] == ' ' ==> i == n || i == sp)
            && (line[i] == '/' ==> n + 1 <= i && (i >= sp ==> i == sp + 5))
  {
    var n, sp := |Name(m)|, |Name(m)| + 2 + |target|;
    if i < n { NameChars(m, i); assert line[i] == line[..n][i]; }
    else if i < n + 2 { assert line[i] == line[n..n + 2][i - n]; }
    else if i < sp { assert line[i] == line[n + 2..sp][i - n - 2]; }
    else if i < sp + 6 { assert line[i] == line[sp..sp + 6][i - sp]; }
    else { assert line[i] == line[sp + 6..][i - sp - 6]; }
  }

  /** A request line does not start with a version. */
  lemma LineStart(line: string, m: Method, target: string, v: Version)
    requires Shaped(line, m, target, v)
    ensures line[..3] != "1.0" && line[..3] != "1.1"
  {
    assert line[0] == line[..|Name(m)|][0] == Name(m)[0];
    assert line[..3][0] == line[0] && "1.0"[0] == '1' && "1.1"[0] == '1';
  }

  /** The slash the version is read from, in a prefix of a request line: if there is one it
      is the slash of HTTP/. */
  lemma PrefixVersionSlash(line: string, m: Method, target: string, v: Version, p: string, at: nat)
    requires Shaped(line, m, target, v) && IsTarget(target) && p <= line
    ensures var ver := Find(p, "/", Find(p, " ", Find(p, "/", at)));
            ver == NPOS || (ver < |p| && ver + 4 == |line|)
  {
    var slash := Find(p, "/", at);
    var space := Find(p, " ", slash);
    var ver := Find(p, "/", space);
    if ver != NPOS {
      assert space <= ver < |p| && slash <= space;
      OccursChar(p, "/", slash);
      OccursChar(p, " ", space);
      OccursChar(p, "/", ver);
      LineShape(line, m, target, v, slash);
      LineShape(line, m, target, v, space);
      LineShape(line, m, target, v, ver);
    }
  }

  /** A request line that has not arrived in full is rejected instead of awaited: parse_URI
      never returns AGAIN, and on every proper prefix of a request line it returns ERROR. */
  lemma SplitLineRejected(m: Method, target: string, v: Version, k: nat, r: Request)
    requires IsTarget(target) && |RequestLine(m, target, v)| < MAX_BUFFER
    requires k < |RequestLine(m, target, v)| && r.buffer == RequestLine(m, target, v)[..k]
    ensures ParseUri(r).0 == UriError
  {
    var line, p := RequestLine(m, target, v), r.buffer;
    assert Shaped(line, m, target, v) by { LinePieces(m, target, v); }
    LineHasNoCr(m, target, v);
    FindCharNone(p, "\r", 0);
    assert Substr(p, 0, NPOS) == p;
    if FindMethod(p).Some? {
      var at := FindMethod(p).value.1;
      PrefixVersionSlash(line, m, target, v, p, at);
      LineStart(line, m, target, v);
      PrefixVersionNone(p, line, Find(p, "/", Find(p, " ", Find(p, "/", at))));
    }
  }

  /** Split just in front of its CR the line is parsed as if it were whole, but it stays in
      the buffer, where the header parser comes upon it. */
  lemma SplitAtCr(m: Method, target: string, v: Version, r: Request)
    requires IsTarget(target) && |RequestLine(m, target, v)| < MAX_BUFFER && r.buffer == RequestLine(m, target, v)
    ensures ParseUri(r) == ParseLine(r.buffer, r)
    ensures ParseUri(r).1.buffer == r.buffer
    ensures !EarlierName(m, r.buffer) ==> ParseUri(r) == (UriSuccess, Request(r.buffer, m, v, FileOf(target)))
  {
    var line := r.buffer;
    LineHasNoCr(m, target, v);
    FindCharNone(line, "\r", 0);
    assert U64(NPOS + 1) == 0 && Substr(line, 0, NPOS) == line && line[0..] == line;
    assert Shaped(line, m, target, v) by { LinePieces(m, target, v); }
    assert line != "";
    ShapedRoundTrip(line, m, target, v, r);
  }

  /** The verdict on the first k characters of a request line, for every k: ERROR on a proper
      prefix; on the whole line without its CR what the line deserves, with the line left in
      the buffer. */
  lemma SplitLine(m: Method, target: string, v: Version, k: nat, r: Request)
    requires IsTarget(target) && |RequestLine(m, target, v)| < MAX_BUFFER
    requires k <= |RequestLine(m, target, v)| && r.buffer == RequestLine(m, target, v)[..k]
    requires !EarlierName(m, RequestLine(m, target, v))
    ensures ParseUri(r).0 == if k < |RequestLine(m, target, v)| then UriError else UriSuccess
    ensures k == |RequestLine(m, target, v)| ==>
              ParseUri(r) == (UriSuccess, Request(RequestLine(m, target, v), m, v, FileOf(target)))
  {
    var line := RequestLine(m, target, v);
    if k < |line| {
      SplitLineRejected(m, target, v, k, r);
    } else {
      assert line[..k] == line;
      SplitAtCr(m, target, v, r);
    }
  }

  lemma PrefixVersionNone(p: string, line: string, ver: nat)
    requires p <= line && |p| < |line| < MAX_BUFFER && 3 <= |line| && line[..3] != "1.0" && line[..3] != "1.1"
    requires ver == NPOS || (ver < |p| && ver + 4 == |line|)
    ensures VersionAt(p, ver) == None
  {
    if ver == NPOS && U64(|p| - ver) > 3 {
      assert U64(|p| - ver) == |p| + 1 && U64(ver + 1) == 0;
      assert Substr(p, 0, 3) == line[..3];
    }
  }
}
