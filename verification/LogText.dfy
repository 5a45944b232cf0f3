/** Text side of the logger: the decimal conversion, the fixed-size buffer and the
    stream that formats log lines into it (Logging.cpp, LogBuffer.h). */
module LogText {
  import opened Prelude

  const SMALL_BUFFER: nat := 4096
  const MAX_DIGIT_SIZE: nat := 32
  const MIN_INT64: int := -0x8000_0000_0000_0000
  const MAX_UINT64: int := 0xFFFF_FFFF_FFFF_FFFF

  /** The symmetric digit table; entry ZERO stands for 0 and entry ZERO + d for |d|. */
  const DIGITS: string := "9876543210123456789"
  const ZERO: nat := 9

  // ---------------------------------------------------------------- decimal notation

  predicate IsDigit(c: char) { '0' <= c <= '9' }

  function DigitChar(d: nat): char
    requires d < 10
  {
    '0' + d as char
  }

  function Digits(n: nat): (s: string)
    ensures s != [] && forall i :: 0 <= i < |s| ==> IsDigit(s[i])
  {
    if n < 10 then [DigitChar(n)] else Digits(n / 10) + [DigitChar(n % 10)]
  }

  /** The decimal text of an integer. */
  function Decimal(v: int): string {
    if v < 0 then "-" + Digits(-v) else Digits(v)
  }

  function DigitValue(c: char): nat
    requires IsDigit(c)
  {
    c as int - '0' as int
  }

  function ParseDigits(s: string): nat
    requires forall i :: 0 <= i < |s| ==> IsDigit(s[i])
  {
    if s == [] then 0 else 10 * ParseDigits(s[..|s| - 1]) + DigitValue(s[|s| - 1])
  }

  /** A numeral without leading zeros. */
  predicate CanonicalDigits(s: string) {
    s != [] && (forall i :: 0 <= i < |s| ==> IsDigit(s[i])) && (s[0] == '0' ==> |s| == 1)
  }

  predicate Canonical(s: string) {
    if s != [] && s[0] == '-' then CanonicalDigits(s[1..]) && s[1] != '0' else CanonicalDigits(s)
  }

  function Parse(s: string): int
    requires Canonical(s)
  {
    if s[0] == '-' then -(ParseDigits(s[1..]) as int) else ParseDigits(s)
  }

  lemma {:induction false} DigitsCanonical(n: nat)
    ensures CanonicalDigits(Digits(n)) && ParseDigits(Digits(n)) == n
    ensures n > 0 ==> Digits(n)[0] != '0'
  {
    var s := Digits(n);
    if n < 10 {
      assert s[..0] == [];
    } else {
      DigitsCanonical(n / 10);
      assert s[..|s| - 1] == Digits(n / 10);
    }
  }

  lemma {:induction false} ParsePositive(s: string)
    requires CanonicalDigits(s) && s[0] != '0'
    ensures ParseDigits(s) > 0
  {
    if |s| == 1 {
      assert s[..0] == [];
    } else {
      ParsePositive(s[..|s| - 1]);
    }
  }

  lemma {:induction false} DigitsOfParse(s: string)
    requires CanonicalDigits(s)
    ensures Digits(ParseDigits(s)) == s
  {
    var n := ParseDigits(s);
    var front, last := s[..|s| - 1], s[|s| - 1];
    if |s| == 1 {
      assert front == [];
    } else {
      DigitsOfParse(front);
      ParsePositive(front);
      assert n / 10 == ParseDigits(front);
      assert s == front + [last];
    }
  }

  /** Decimal and Parse are inverse to each other: every integer has exactly one
      canonical text. */
  lemma DecimalIsCanonical(v: int)
    ensures Canonical(Decimal(v)) && Parse(Decimal(v)) == v
  {
    var m: nat := if v < 0 then -v else v;
    DigitsCanonical(m);
    if v < 0 {
      assert Decimal(v)[1..] == Digits(m);
    }
  }

  lemma CanonicalIsDecimal(s: string)
    requires Canonical(s)
    ensures Decimal(Parse(s)) == s
  {
    if s[0] == '-' {
      DigitsOfParse(s[1..]);
      ParsePositive(s[1..]);
      assert s == "-" + s[1..];
    } else {
      DigitsOfParse(s);
    }
  }

  function Pow10(k: nat): nat {
    if k == 0 then 1 else 10 * Pow10(k - 1)
  }

  lemma {:induction false} DigitsLength(n: nat, k: nat)
    requires k > 0 && n < Pow10(k)
    ensures |Digits(n)| <= k
  {
    if n >= 10 {
      assert k > 1 by { assert Pow10(1) == 10 * Pow10(0); }
      DigitsLength(n / 10, k - 1);
    }
  }

  lemma Pow10Values()
    ensures Pow10(19) == 10_000_000_000_000_000_000
    ensures Pow10(20) == 100_000_000_000_000_000_000
  {
    assert Pow10(5) == 100_000;
    assert Pow10(10) == 10_000_000_000;
    assert Pow10(15) == 1_000_000_000_000_000;
  }

  /** Every signed or unsigned 64-bit value needs at most 20 characters. */
  lemma DecimalLength(v: int)
    requires MIN_INT64 <= v <= MAX_UINT64
    ensures 1 <= |Decimal(v)| <= 20
  {
    Pow10Values();
    if v < 0 { DigitsLength(-v, 19); } else { DigitsLength(v, 20); }
  }

  // ---------------------------------------------------------------- convert

  function Reversed(s: string): (r: string)
    ensures |r| == |s|
  {
    if s == [] then [] else Reversed(s[1..]) + [s[0]]
  }

  lemma {:induction false} ReversedAt(s: string, k: nat)
    requires k < |s|
    ensures Reversed(s)[k] == s[|s| - 1 - k]
  {
    if k < |s| - 1 { ReversedAt(s[1..], k); }
  }

  lemma {:induction false} ReversedSnoc(s: string, c: char)
    ensures Reversed(s + [c]) == [c] + Reversed(s)
  {
    if s != [] {
      assert (s + [c])[1..] == s[1..] + [c];
      ReversedSnoc(s[1..], c);
    }
  }

  lemma ReversedIs(was: string, text: string)
    requires |text| == |was| && forall k :: 0 <= k < |was| ==> text[k] == was[|was| - 1 - k]
    ensures text == Reversed(was)
  {
    forall k | 0 <= k < |was| ensures text[k] == Reversed(was)[k] { ReversedAt(was, k); }
  }

  /** std::reverse on [first, last): two ends move toward each other. */
  method ReverseRange(a: array<char>, first: nat, last: nat)
    requires first <= last <= a.Length
    modifies a
    ensures a[first..last] == Reversed(old(a[first..last]))
    ensures forall k :: 0 <= k < a.Length && !(first <= k < last) ==> a[k] == old(a[k])
  {
    var lo, hi := first, last;
    while lo + 1 < hi
      invariant first <= lo <= hi <= last && lo - first == last - hi
      invariant forall k :: 0 <= k < a.Length && !(first <= k < last) ==> a[k] == old(a[k])
      invariant forall k :: lo <= k < hi ==> a[k] == old(a[k])
      invariant forall k :: first <= k < last && !(lo <= k < hi) ==> a[k] == old(a[first + last - 1 - k])
    {
      a[lo], a[hi - 1] := a[hi - 1], a[lo];
      lo, hi := lo + 1, hi - 1;
    }
    ghost var was, text := old(a[first..last]), a[first..last];
    forall k | 0 <= k < |was| ensures text[k] == was[|was| - 1 - k] {
      assert text[k] == a[first + k] && was[|was| - 1 - k] == old(a[last - 1 - k]);
    }
    ReversedIs(was, text);
  }

  /** The digits convert has still to produce while its do-loop is at magnitude rest. */
  ghost function Pending(more: bool, rest: nat): string {
    if more then Digits(rest) else ""
  }

  lemma DigitsLast(rest: nat)
    ensures Digits(rest) == Pending(rest / 10 != 0, rest / 10) + [DigitChar(rest % 10)]
  {
    if rest < 10 {
      assert rest / 10 == 0 && rest % 10 == rest;
      assert "" + [DigitChar(rest)] == [DigitChar(rest)];
    } else {
      assert rest / 10 != 0;
    }
  }

  lemma MoveLast(text: string, c: char, before: string)
    ensures (text + [c]) + Reversed(before) == text + Reversed(before + [c])
  {
    ReversedSnoc(before, c);
    assert (text + [c]) + Reversed(before) == text + ([c] + Reversed(before));
  }

  lemma DigitStep(rest: nat, before: string)
    ensures Digits(rest) + Reversed(before)
         == Pending(rest / 10 != 0, rest / 10) + Reversed(before + [DigitChar(rest % 10)])
  {
    DigitsLast(rest);
    MoveLast(Pending(rest / 10 != 0, rest / 10), DigitChar(rest % 10), before);
  }

  /** The table look-up of convert: the truncated remainder of either sign selects the
      character of its magnitude. */
  lemma TableEntry(num: int, rest: nat)
    requires num == rest || num == -(rest as int)
    ensures 0 <= ZERO + TruncMod(num, 10) < |DIGITS|
    ensures DIGITS[ZERO + TruncMod(num, 10)] == DigitChar(rest % 10)
    ensures TruncDiv(num, 10) == if num >= 0 then rest / 10 else -(rest as int / 10)
  {
    var d := TruncMod(num, 10);
    assert d == (if num >= 0 then rest % 10 else -(rest as int % 10));
  }

  method PutChar(buffer: array<char>, start: nat, cur: nat, c: char)
    requires start <= cur < buffer.Length
    modifies buffer
    ensures buffer[start..cur + 1] == old(buffer[start..cur]) + [c]
    ensures forall k :: 0 <= k < buffer.Length && k != cur ==> buffer[k] == old(buffer[k])
  {
    buffer[cur] := c;
  }

  /** The do-loop of convert: the digits of value, lowest first. */
  method WriteDigits(buffer: array<char>, start: nat, value: int) returns (cur: nat)
    requires MIN_INT64 <= value <= MAX_UINT64
    requires start + MAX_DIGIT_SIZE <= buffer.Length
    modifies buffer
    ensures cur == start + |Digits(if value < 0 then -value else value)| <= buffer.Length
    ensures Reversed(buffer[start..cur]) == Digits(if value < 0 then -value else value)
    ensures forall k :: 0 <= k < buffer.Length && !(start <= k < cur) ==> buffer[k] == old(buffer[k])
  {
    var num, more := value, true;
    cur := start;
    ghost var rest: nat := if value < 0 then -value else value;
    ghost var all := Digits(rest);
    assert |all| <= 20 by { DecimalLength(value); }
    while more
      invariant start <= cur && cur - start + |Pending(more, rest)| == |all|
      invariant num == if value < 0 then -(rest as int) else rest
      invariant Pending(more, rest) + Reversed(buffer[start..cur]) == all
      invariant forall k :: 0 <= k < buffer.Length && !(start <= k < cur) ==> buffer[k] == old(buffer[k])
      decreases if more then rest + 1 else 0
    {
      ghost var before := buffer[start..cur];
      TableEntry(num, rest);
      DigitStep(rest, before);
      var digit := TruncMod(num, 10);
      num := TruncDiv(num, 10);
      PutChar(buffer, start, cur, DIGITS[ZERO + digit]);
      cur := cur + 1;
      rest := rest / 10;
      more := num != 0;
    }
  }

  /** The loop and the sign: the text of value, back to front. */
  method WriteBackwards(buffer: array<char>, start: nat, value: int) returns (cur: nat)
    requires MIN_INT64 <= value <= MAX_UINT64
    requires start + MAX_DIGIT_SIZE <= buffer.Length
    modifies buffer
    ensures start <= cur <= buffer.Length && Reversed(buffer[start..cur]) == Decimal(value)
    ensures forall k :: 0 <= k < buffer.Length && !(start <= k < cur) ==> buffer[k] == old(buffer[k])
  {
    ghost var magnitude: nat := if value < 0 then -value else value;
    ghost var text := Digits(magnitude);
    assert |text| <= 20 by { DecimalLength(value); }
    cur := WriteDigits(buffer, start, value);
    ghost var written := buffer[start..cur];
    if value < 0 {
      buffer[cur] := '-';
      cur := cur + 1;
      assert buffer[start..cur] == written + ['-'];
      ReversedSnoc(written, '-');
      assert Decimal(value) == "-" + text;
    } else {
      assert Decimal(value) == text;
    }
  }

  /** The end of convert: the terminating NUL, and the text turned the right way round. */
  method TurnRound(buffer: array<char>, start: nat, cur: nat, ghost text: string)
    requires start <= cur < buffer.Length && Reversed(buffer[start..cur]) == text
    modifies buffer
    ensures buffer[start..cur] == text && buffer[cur] == '\0'
    ensures forall k :: 0 <= k < buffer.Length && !(start <= k <= cur) ==> buffer[k] == old(buffer[k])
  {
    buffer[cur] := '\0';
    assert buffer[start..cur] == old(buffer[start..cur]);
    ReverseRange(buffer, start, cur);
  }

  /** Writes the decimal text of value at offset start, then a terminating NUL. */
  method Convert(buffer: array<char>, start: nat, value: int) returns (length: nat)
    requires MIN_INT64 <= value <= MAX_UINT64
    requires start + MAX_DIGIT_SIZE <= buffer.Length
    modifies buffer
    ensures length <= 20 && buffer[start..start + length] == Decimal(value)
    ensures buffer[start + length] == '\0'
    ensures forall k :: 0 <= k < buffer.Length && !(start <= k <= start + length) ==> buffer[k] == old(buffer[k])
  {
    ghost var text := Decimal(value);
    assert |text| <= 20 by { DecimalLength(value); }
    var cur := WriteBackwards(buffer, start, value);
    assert cur - start == |text|;
    TurnRound(buffer, start, cur, text);
    length := cur - start;
  }

  // ---------------------------------------------------------------- LogBuffer

  /** What LogBuffer::append does to the text held in a buffer of the given size. */
  function Put(size: nat, text: string, piece: string): string {
    if size - |text| > |piece| then text + piece else text
  }

  /** A fixed array with a cursor; text is what lies before the cursor. */
  class LogBuffer {
    const data: array<char>
    var cur: nat
    ghost var text: string

    ghost predicate Valid()
      reads this, data
    {
      cur <= data.Length && text == data[..cur]
    }

    constructor (size: nat)
      ensures Valid() && fresh(data) && data.Length == size && text == ""
    {
      data := new char[size];
      cur := 0;
      text := "";
    }

    method AvailableSize() returns (n: nat)
      requires Valid()
      ensures n == data.Length - |text|
    {
      n := data.Length - cur;
    }

    method Append(piece: string)
      requires Valid()
      modifies this, data
      ensures Valid() && text == Put(data.Length, old(text), piece)
      ensures text == if |old(text)| + |piece| < data.Length then old(text) + piece else old(text)
    {
      var available := AvailableSize();
      if available > |piece| {
        forall i | 0 <= i < |piece| { data[cur + i] := piece[i]; }
        cur := cur + |piece|;
        text := text + piece;
        assert data[..cur] == text;
      }
    }

    method SetZeros()
      modifies data
      ensures forall i :: 0 <= i < data.Length ==> data[i] == '\0'
    {
      forall i | 0 <= i < data.Length { data[i] := '\0'; }
    }

    method Reset()
      modifies this, data
      ensures Valid() && text == "" && forall i :: 0 <= i < data.Length ==> data[i] == '\0'
    {
      SetZeros();
      cur := 0;
      text := "";
    }

    /** The guarded integer insertion of LogStream: convert at the cursor, then add. */
    method FormatInteger(value: int)
      requires Valid() && MIN_INT64 <= value <= MAX_UINT64
      modifies this, data
      ensures Valid() && text == PutPiece(data.Length, old(text), Number(value))
      ensures text == if |old(text)| + MAX_DIGIT_SIZE <= data.Length then old(text) + Decimal(value) else old(text)
    {
      var available := AvailableSize();
      if available >= MAX_DIGIT_SIZE {
        var length := Convert(data, cur, value);
        ghost var was := text;
        cur := cur + length;
        text := text + Decimal(value);
        assert data[..cur] == data[..|was|] + data[|was|..cur];
      }
    }
  }

  // ---------------------------------------------------------------- LogStream

  /** One operator<< of LogStream. */
  datatype Piece = Number(value: int) | Text(text: string) | NullText | Flag(on: bool) | Letter(c: char)

  predicate Fits64(p: Piece) {
    p.Number? ==> MIN_INT64 <= p.value <= MAX_UINT64
  }

  predicate AllFit64(ps: seq<Piece>) {
    forall i :: 0 <= i < |ps| ==> Fits64(ps[i])
  }

  function PutPiece(size: nat, text: string, p: Piece): string {
    match p
    case Number(v) => if size - |text| >= MAX_DIGIT_SIZE then text + Decimal(v) else text
    case Text(s) => Put(size, text, s)
    case NullText => Put(size, text, "_null_")
    case Flag(on) => Put(size, text, if on then "1" else "0")
    case Letter(c) => Put(size, text, [c])
  }

  function PutAll(size: nat, text: string, ps: seq<Piece>): string
    decreases |ps|
  {
    if ps == [] then text else PutAll(size, PutPiece(size, text, ps[0]), ps[1..])
  }

  /** The text of a piece when there is room for it. */
  function Rendered(p: Piece): string {
    match p
    case Number(v) => Decimal(v)
    case Text(s) => s
    case NullText => "_null_"
    case Flag(on) => if on then "1" else "0"
    case Letter(c) => [c]
  }

  function RenderedAll(ps: seq<Piece>): string {
    if ps == [] then "" else Rendered(ps[0]) + RenderedAll(ps[1..])
  }

  /** The room a piece must find: numbers reserve MAX_DIGIT_SIZE whatever their length. */
  function Reserve(p: Piece): nat {
    if p.Number? then MAX_DIGIT_SIZE else |Rendered(p)| + 1
  }

  function TotalReserve(ps: seq<Piece>): nat {
    if ps == [] then 0 else Reserve(ps[0]) + TotalReserve(ps[1..])
  }

  /** Over any sequence of insertions the cursor never reaches the end of the buffer. */
  lemma {:induction false} CursorInside(size: nat, text: string, ps: seq<Piece>)
    requires |text| < size && AllFit64(ps)
    ensures |PutAll(size, text, ps)| < size && text <= PutAll(size, text, ps)
    decreases |ps|
  {
    if ps != [] {
      assert Fits64(ps[0]);
      if ps[0].Number? { DecimalLength(ps[0].value); }
      CursorInside(size, PutPiece(size, text, ps[0]), ps[1..]);
    }
  }

  lemma PieceFits(size: nat, text: string, p: Piece)
    requires |text| + Reserve(p) <= size && Fits64(p)
    ensures PutPiece(size, text, p) == text + Rendered(p) && |Rendered(p)| <= Reserve(p)
  {
    if p.Number? { DecimalLength(p.value); }
  }

  /** No insertion is lost as long as the reservations fit. */
  lemma {:induction false} NothingDropped(size: nat, text: string, ps: seq<Piece>)
    requires |text| + TotalReserve(ps) <= size && AllFit64(ps)
    ensures PutAll(size, text, ps) == text + RenderedAll(ps)
    decreases |ps|
  {
    if ps != [] {
      assert Fits64(ps[0]);
      PieceFits(size, text, ps[0]);
      NothingDropped(size, text + Rendered(ps[0]), ps[1..]);
      assert (text + Rendered(ps[0])) + RenderedAll(ps[1..]) == text + (Rendered(ps[0]) + RenderedAll(ps[1..]));
    }
  }

  /** The pieces that go in when used characters are taken: each that finds its reserve. */
  function Admitted(size: nat, used: nat, ps: seq<Piece>): seq<Piece>
    decreases |ps|
  {
    if ps == [] then []
    else if used + Reserve(ps[0]) <= size then [ps[0]] + Admitted(size, used + |Rendered(ps[0])|, ps[1..])
    else Admitted(size, used, ps[1..])
  }

  lemma PieceAdmitted(size: nat, text: string, p: Piece)
    ensures PutPiece(size, text, p) == if |text| + Reserve(p) <= size then text + Rendered(p) else text
  {
  }

  /** A line is the text of the admitted pieces, each whole; of the others nothing goes in. */
  lemma {:induction false} LineIsAdmitted(size: nat, text: string, ps: seq<Piece>)
    ensures PutAll(size, text, ps) == text + RenderedAll(Admitted(size, |text|, ps))
    decreases |ps|
  {
    if ps != [] {
      PieceAdmitted(size, text, ps[0]);
      LineIsAdmitted(size, PutPiece(size, text, ps[0]), ps[1..]);
      if |text| + Reserve(ps[0]) <= size {
        RenderedFirst(text, ps[0], Admitted(size, |text| + |Rendered(ps[0])|, ps[1..]));
      }
    }
  }

  lemma RenderedFirst(text: string, p: Piece, rest: seq<Piece>)
    ensures (text + Rendered(p)) + RenderedAll(rest) == text + RenderedAll([p] + rest)
  {
    assert ([p] + rest)[1..] == rest;
  }

  /** A LogStream line: all insertions in order, on the real buffer. */
  method FormatLine(buffer: LogBuffer, ps: seq<Piece>)
    requires buffer.Valid() && |buffer.text| < buffer.data.Length && AllFit64(ps)
    modifies buffer, buffer.data
    ensures buffer.Valid() && buffer.text == PutAll(buffer.data.Length, old(buffer.text), ps)
    ensures buffer.text
         == old(buffer.text) + RenderedAll(Admitted(buffer.data.Length, |old(buffer.text)|, ps))
    ensures buffer.cur < buffer.data.Length
  {
    var i := 0;
    CursorInside(buffer.data.Length, buffer.text, ps);
    LineIsAdmitted(buffer.data.Length, buffer.text, ps);
    while i < |ps|
      invariant 0 <= i <= |ps| && buffer.Valid()
      invariant PutAll(buffer.data.Length, buffer.text, ps[i..]) == PutAll(buffer.data.Length, old(buffer.text), ps)
    {
      assert Fits64(ps[i]);
      match ps[i] {
        case Number(v) => buffer.FormatInteger(v);
        case Text(s) => buffer.Append(s);
        case NullText => buffer.Append("_null_");
        case Flag(on) => buffer.Append(if on then "1" else "0");
        case Letter(c) => buffer.Append([c]);
      }
      i := i + 1;
    }
  }
}
