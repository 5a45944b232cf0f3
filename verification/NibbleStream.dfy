/** Streams of packed values: the payload bytes one after another, the codes two to a byte,
    and the reader that walks both (Packer.h). */
module NibbleStream {
  import opened Prelude
  import opened Packer

  // ---------------------------------------------------------------- writing

  predicate AllOk(fs: seq<Field>) {
    forall i :: 0 <= i < |fs| ==> FieldOk(fs[i])
  }

  function Codes(fs: seq<Field>): (cs: seq<nat>)
    ensures |cs| == |fs| && forall i :: 0 <= i < |fs| ==> cs[i] == fs[i].code
  {
    seq(|fs|, i requires 0 <= i < |fs| => fs[i].code)
  }

  function Payloads(fs: seq<Field>): seq<byte> {
    if fs == [] then [] else fs[0].bytes + Payloads(fs[1..])
  }

  lemma {:induction false} PayloadsConcat(a: seq<Field>, b: seq<Field>)
    ensures Payloads(a + b) == Payloads(a) + Payloads(b)
  {
    if a == [] {
      assert a + b == b;
    } else {
      assert (a + b)[1..] == a[1..] + b;
      PayloadsConcat(a[1..], b);
    }
  }

  lemma PayloadsSnoc(fs: seq<Field>, f: Field)
    ensures Payloads(fs + [f]) == Payloads(fs) + f.bytes
  {
    PayloadsConcat(fs, [f]);
    assert Payloads([f]) == f.bytes + Payloads([]);
  }

  lemma {:induction false} PayloadsBound(fs: seq<Field>)
    requires AllOk(fs)
    ensures |Payloads(fs)| <= 8 * |fs|
  {
    if fs != [] { PayloadsBound(fs[1..]); }
  }

  predicate AllFit(xs: seq<Item>) {
    forall i :: 0 <= i < |xs| ==> Fits(xs[i])
  }

  function Fields(xs: seq<Item>): (fs: seq<Field>)
    requires AllFit(xs)
    ensures |fs| == |xs| && forall i :: 0 <= i < |xs| ==> fs[i] == FieldOf(xs[i])
  {
    seq(|xs|, i requires 0 <= i < |xs| => FieldOf(xs[i]))
  }

  lemma FieldsOk(xs: seq<Item>)
    requires AllFit(xs)
    ensures AllOk(Fields(xs))
  {
    forall i | 0 <= i < |xs| ensures FieldOk(Fields(xs)[i]) { ValueRoundTrip(xs[i]); }
  }

  /** Packing values one after another: what a copy spills past the advanced pointer is
      overwritten by the next, so the bytes are the payloads and nothing else. */
  method PackStream(buffer: array<byte>, start: nat, xs: seq<Item>) returns (end: nat, codes: seq<nat>)
    requires AllFit(xs) && start + 8 * |xs| <= buffer.Length
    modifies buffer
    ensures codes == Codes(Fields(xs)) && end == start + |Payloads(Fields(xs))| <= buffer.Length
    ensures buffer[start..end] == Payloads(Fields(xs))
    ensures forall k :: 0 <= k < start ==> buffer[k] == old(buffer[k])
  {
    ghost var fs := Fields(xs);
    FieldsOk(xs);
    end, codes := start, [];
    for i := 0 to |xs|
      invariant codes == Codes(fs)[..i] && start <= end <= start + 8 * i
      invariant buffer[start..end] == Payloads(fs[..i])
      invariant forall k :: 0 <= k < start ==> buffer[k] == old(buffer[k])
    {
      ghost var mid := end;
      PayloadsSnoc(fs[..i], fs[i]);
      assert fs[..i + 1] == fs[..i] + [fs[i]] && FieldOk(fs[i]) && fs[i] == FieldOf(xs[i]);
      var code: nat;
      end, code := PackNext(buffer, start, end, xs[i]);
      codes := codes + [code];
    }
    assert fs[..|xs|] == fs;
  }

  /** One more value behind those already packed from start on. */
  method PackNext(buffer: array<byte>, start: nat, pos: nat, x: Item) returns (next: nat, code: nat)
    requires Fits(x) && start <= pos && pos + 8 <= buffer.Length
    modifies buffer
    ensures code == FieldOf(x).code && next == pos + |FieldOf(x).bytes| <= pos + 8
    ensures buffer[start..next] == old(buffer[start..pos]) + FieldOf(x).bytes
    ensures forall k :: 0 <= k < start ==> buffer[k] == old(buffer[k])
  {
    next, code := Pack(buffer, pos, x);
    assert buffer[start..next] == buffer[start..pos] + buffer[pos..next];
    assert buffer[start..pos] == old(buffer[start..pos]);
  }

  // ---------------------------------------------------------------- nibbles

  /** Two codes to a byte, the first in the low half. */
  function NibbleBytes(codes: seq<nat>): (bs: seq<byte>)
    requires forall i :: 0 <= i < |codes| ==> codes[i] < 16
    ensures |bs| == (|codes| + 1) / 2
  {
    if codes == [] then []
    else if |codes| == 1 then [codes[0]]
    else [codes[0] + 16 * codes[1]] + NibbleBytes(codes[2..])
  }

  /** The k-th code of a nibble stream. */
  function NibbleAt(mem: seq<byte>, k: nat): (c: nat)
    requires k / 2 < |mem|
    ensures c < 16
  {
    if k % 2 == 0 then mem[k / 2] % 16 else mem[k / 2] / 16
  }

  lemma {:induction false} NibbleStored(codes: seq<nat>, rest: seq<byte>, k: nat)
    requires (forall i :: 0 <= i < |codes| ==> codes[i] < 16) && k < |codes|
    ensures NibbleAt(NibbleBytes(codes) + rest, k) == codes[k]
  {
    if k >= 2 {
      NibbleStored(codes[2..], rest, k - 2);
      assert (NibbleBytes(codes) + rest)[1..] == NibbleBytes(codes[2..]) + rest;
      assert (NibbleBytes(codes) + rest)[k / 2] == (NibbleBytes(codes[2..]) + rest)[(k - 2) / 2];
    }
  }

  /** What get_size_of_package adds for a code; code 0 announces 16 bytes. */
  function Announced(code: nat): nat
    requires code < 16
  {
    if code == 0 then 16 else Consumed(code)
  }

  function TotalAnnounced(mem: seq<byte>, n: nat): nat
    requires (n + 1) / 2 <= |mem|
  {
    if n == 0 then 0 else TotalAnnounced(mem, n - 1) + Announced(NibbleAt(mem, n - 1))
  }

  function TotalConsumed(mem: seq<byte>, n: nat): nat
    requires (n + 1) / 2 <= |mem|
  {
    if n == 0 then 0 else TotalConsumed(mem, n - 1) + Consumed(NibbleAt(mem, n - 1))
  }

  /** The announced size is what the reader consumes exactly when code 0 does not occur. */
  lemma {:induction false} AnnouncedIsConsumed(mem: seq<byte>, n: nat)
    requires (n + 1) / 2 <= |mem|
    ensures TotalConsumed(mem, n) <= TotalAnnounced(mem, n) <= 16 * n
    ensures TotalAnnounced(mem, n) == TotalConsumed(mem, n) <==> forall k :: 0 <= k < n ==> NibbleAt(mem, k) != 0
    ensures (forall k :: 0 <= k < n ==> NibbleAt(mem, k) != 0) ==> TotalAnnounced(mem, n) <= 8 * n
  {
    if n > 0 {
      AnnouncedIsConsumed(mem, n - 1);
      if forall k :: 0 <= k < n - 1 ==> NibbleAt(mem, k) != 0 {
        assert NibbleAt(mem, n - 1) != 0 ==> forall k :: 0 <= k < n ==> NibbleAt(mem, k) != 0;
      }
    }
  }

  function Add32(a: nat, d: int): nat {
    (a + d) % TWO32
  }

  /** One half of a nibble byte in get_size_of_package, after its plain addition. */
  function Corrected(size: nat, code: nat): nat {
    var s := if code == 0 then Add32(size, 16) else size;
    if code > 8 then Add32(s, -8) else s
  }

  lemma Added(size: nat, exact: nat, d: nat)
    requires size == exact % TWO32
    ensures Add32(size, d) == (exact + d) % TWO32
  {
  }

  lemma CorrectedCount(size: nat, exact: int, code: nat)
    requires code < 16 && size == exact % TWO32
    ensures Corrected(size, code) == (exact + Announced(code) - code) % TWO32
  {
  }

  lemma ByteCounted(size: nat, exact: nat, first: nat, second: nat)
    requires first < 16 && second < 16 && size == exact % TWO32
    ensures Corrected(Corrected(Add32(size, first + second), first), second)
            == (exact + Announced(first) + Announced(second)) % TWO32
  {
    var s1 := Add32(size, first + second);
    Added(size, exact, first + second);
    CorrectedCount(s1, exact + first + second, first);
    CorrectedCount(Corrected(s1, first), exact + Announced(first) + second, second);
  }

  /** get_size_of_package, in 32-bit arithmetic. */
  method GetSizeOfPackage(mem: seq<byte>, numNibbles: nat) returns (size: nat)
    requires (numNibbles + 1) / 2 <= |mem|
    ensures size == TotalAnnounced(mem, numNibbles) % TWO32 && size < TWO32
  {
    size := 0;
    var i := 0;
    while i < numNibbles / 2
      invariant 0 <= i <= numNibbles / 2 && size == TotalAnnounced(mem, 2 * i) % TWO32
    {
      var first, second := NibbleAt(mem, 2 * i), NibbleAt(mem, 2 * i + 1);
      TwoMore(mem, i);
      ByteCounted(size, TotalAnnounced(mem, 2 * i), first, second);
      size := Add32(size, first + second);
      size := Corrected(size, first);
      size := Corrected(size, second);
      i := i + 1;
    }
    if numNibbles % 2 == 1 {
      var last := NibbleAt(mem, numNibbles - 1);
      Added(size, TotalAnnounced(mem, numNibbles - 1), last);
      CorrectedCount(Add32(size, last), TotalAnnounced(mem, numNibbles - 1) + last, last);
      size := Add32(size, last);
      size := Corrected(size, last);
    }
  }

  lemma TwoMore(mem: seq<byte>, i: nat)
    requires i < |mem|
    ensures TotalAnnounced(mem, 2 * (i + 1))
            == TotalAnnounced(mem, 2 * i) + Announced(NibbleAt(mem, 2 * i)) + Announced(NibbleAt(mem, 2 * i + 1))
  {
    assert 2 * (i + 1) - 1 == 2 * i + 1;
    assert TotalAnnounced(mem, 2 * i + 1) == TotalAnnounced(mem, 2 * i) + Announced(NibbleAt(mem, 2 * i));
  }

  // ---------------------------------------------------------------- reading

  /** The reader's position: a nibble byte and which half of it, and a data byte. */
  datatype Position = Position(nibble: nat, first: bool, data: nat)

  /** What the statement after the increment does: line 197 compares is_first_nibble with
      itself, the reader needs it flipped. */
  datatype Flip = Compares | Toggles

  /** The field get_next reads; None when its assertion fails or the bytes are not there. */
  function Fetch(mem: seq<byte>, end: nat, p: Position, flip: Flip): Option<(Field, Position)> {
    if p.nibble >= |mem| || p.data >= end then None else
    var code := NibbleAt(mem, 2 * p.nibble + (if p.first then 0 else 1));
    if p.data + Consumed(code) > |mem| then None else
    Some((Field(code, mem[p.data..p.data + Consumed(code)]),
          Position(if p.first then p.nibble else p.nibble + 1,
                   if flip.Toggles? then !p.first else p.first,
                   p.data + Consumed(code))))
  }

  function FetchAll(mem: seq<byte>, end: nat, p: Position, n: nat, flip: Flip): Option<(seq<Field>, Position)> {
    if n == 0 then Some(([], p)) else
    match FetchAll(mem, end, p, n - 1, flip)
    case None => None
    case Some((fs, q)) =>
      match Fetch(mem, end, q, flip)
      case None => None
      case Some((f, r)) => Some((fs + [f], r))
  }

  /** The values of fields read as the given types. */
  function Decode(fs: seq<Field>, kinds: seq<Kind>): (vs: seq<int>)
    requires |fs| == |kinds|
    ensures |vs| == |fs| && forall i :: 0 <= i < |fs| ==> vs[i] == Unpack(kinds[i], fs[i].bytes, fs[i].code)
  {
    seq(|fs|, i requires 0 <= i < |fs| => Unpack(kinds[i], fs[i].bytes, fs[i].code))
  }

  lemma DecodeSnoc(fs: seq<Field>, f: Field, kinds: seq<Kind>, k: Kind)
    requires |fs| == |kinds|
    ensures Decode(fs + [f], kinds + [k]) == Decode(fs, kinds) + [Unpack(k, f.bytes, f.code)]
  {
  }

  lemma {:induction false} FetchAllPrefix(mem: seq<byte>, end: nat, p: Position, m: nat, n: nat, flip: Flip)
    requires m <= n && FetchAll(mem, end, p, n, flip).Some?
    ensures FetchAll(mem, end, p, m, flip).Some?
  {
    if m < n { FetchAllPrefix(mem, end, p, m, n - 1, flip); }
  }

  lemma FetchAllStep(mem: seq<byte>, end: nat, p: Position, m: nat, n: nat, flip: Flip, got: seq<Field>, q: Position)
    requires m < n && FetchAll(mem, end, p, n, flip).Some? && FetchAll(mem, end, p, m, flip) == Some((got, q))
    ensures Fetch(mem, end, q, flip).Some?
    ensures var (f, r) := Fetch(mem, end, q, flip).value; FetchAll(mem, end, p, m + 1, flip) == Some((got + [f], r))
  {
    FetchAllPrefix(mem, end, p, m + 1, n, flip);
  }

  /** end_of_package as the reader computes it. */
  function EndOf(mem: seq<byte>, n: nat): nat
    requires (n + 1) / 2 <= |mem|
  {
    (n + 1) / 2 + TotalAnnounced(mem, n) % TWO32
  }

  /** Where a reader stands after n values, with its data pointer at data. */
  function Reached(n: nat, data: nat): Position {
    Position(n / 2, n % 2 == 0, data)
  }

  class Nibbler {
    const mem: seq<byte>
    const endOfPackage: nat
    const flip: Flip
    var nibblePosition: nat
    var isFirstNibble: bool
    var currentPackage: nat

    ghost function At(): Position
      reads this
    {
      Position(nibblePosition, isFirstNibble, currentPackage)
    }

    constructor (mem: seq<byte>, numNibbles: nat, flip: Flip)
      requires (numNibbles + 1) / 2 <= |mem|
      ensures this.mem == mem && this.flip == flip && At() == Reached(0, (numNibbles + 1) / 2)
      ensures endOfPackage == EndOf(mem, numNibbles)
    {
      this.mem, this.flip := mem, flip;
      nibblePosition, isFirstNibble, currentPackage := 0, true, (numNibbles + 1) / 2;
      var size := GetSizeOfPackage(mem, numNibbles);
      endOfPackage := (numNibbles + 1) / 2 + size;
    }

    method GetNext(k: Kind) returns (value: int, ghost field: Field)
      requires Fetch(mem, endOfPackage, At(), flip).Some?
      modifies this
      ensures Some((field, At())) == Fetch(mem, endOfPackage, old(At()), flip)
      ensures value == Unpack(k, field.bytes, field.code)
    {
      var code := NibbleAt(mem, if isFirstNibble then 2 * nibblePosition else 2 * nibblePosition + 1);
      var bytes := mem[currentPackage..currentPackage + Consumed(code)];
      value, field := Unpack(k, bytes, code), Field(code, bytes);
      currentPackage := currentPackage + Consumed(code);
      if !isFirstNibble { nibblePosition := nibblePosition + 1; }
      if flip.Toggles? { isFirstNibble := !isFirstNibble; }
    }

    /** get_next called once for each type in turn. */
    method GetAll(kinds: seq<Kind>) returns (values: seq<int>)
      requires FetchAll(mem, endOfPackage, At(), |kinds|, flip).Some?
      modifies this
      ensures var r := FetchAll(mem, endOfPackage, old(At()), |kinds|, flip);
              r.Some? && |r.value.0| == |kinds| && values == Decode(r.value.0, kinds) && At() == r.value.1
    {
      values := [];
      ghost var start, got := At(), [];
      for i := 0 to |kinds|
        invariant FetchAll(mem, endOfPackage, start, i, flip) == Some((got, At())) && |got| == i
        invariant values == Decode(got, kinds[..i])
      {
        FetchAllStep(mem, endOfPackage, start, i, |kinds|, flip, got, At());
        var value, field := GetNext(kinds[i]);
        values := values + [value];
        DecodeSnoc(got, field, kinds[..i], kinds[i]);
        assert kinds[..i] + [kinds[i]] == kinds[..i + 1];
        got := got + [field];
      }
      assert kinds[..|kinds|] == kinds;
    }
  }

  // ---------------------------------------------------------------- the round trip

  lemma CodesFit(fs: seq<Field>)
    requires AllOk(fs)
    ensures forall i :: 0 <= i < |fs| ==> 1 <= Codes(fs)[i] < 16
  {
    forall i | 0 <= i < |fs| ensures 1 <= Codes(fs)[i] < 16 { assert FieldOk(fs[i]); }
  }

  /** The package: nibbles first, then the payloads. */
  function Package(fs: seq<Field>): (mem: seq<byte>)
    requires AllOk(fs)
    ensures |mem| == (|fs| + 1) / 2 + |Payloads(fs)|
  {
    CodesFit(fs);
    NibbleBytes(Codes(fs)) + Payloads(fs)
  }

  lemma PackageNibble(fs: seq<Field>, k: nat)
    requires AllOk(fs) && k < |fs|
    ensures NibbleAt(Package(fs), k) == fs[k].code != 0
  {
    CodesFit(fs);
    NibbleStored(Codes(fs), Payloads(fs), k);
  }

  /** Where the n-th payload lies in the package. */
  function From(fs: seq<Field>, n: nat): nat
    requires n <= |fs|
  {
    (|fs| + 1) / 2 + |Payloads(fs[..n])|
  }

  lemma Middle(a: seq<byte>, b: seq<byte>, c: seq<byte>)
    ensures (a + (b + c))[|a|..|a| + |b|] == b
  {
  }

  lemma PayloadsAround(fs: seq<Field>, n: nat)
    requires n < |fs|
    ensures Payloads(fs) == Payloads(fs[..n]) + (fs[n].bytes + Payloads(fs[n..][1..]))
    ensures |Payloads(fs[..n + 1])| == |Payloads(fs[..n])| + |fs[n].bytes|
  {
    PayloadsSnoc(fs[..n], fs[n]);
    assert fs[..n + 1] == fs[..n] + [fs[n]];
    assert fs == fs[..n] + fs[n..];
    PayloadsConcat(fs[..n], fs[n..]);
  }

  lemma PayloadPlace(fs: seq<Field>, n: nat)
    requires AllOk(fs) && n < |fs|
    ensures From(fs, n) + |fs[n].bytes| == From(fs, n + 1) <= |Package(fs)|
    ensures Package(fs)[From(fs, n)..From(fs, n + 1)] == fs[n].bytes
  {
    CodesFit(fs);
    PayloadsAround(fs, n);
    var front, rest := NibbleBytes(Codes(fs)) + Payloads(fs[..n]), Payloads(fs[n..][1..]);
    assert Package(fs) == front + (fs[n].bytes + rest);
    Middle(front, fs[n].bytes, rest);
  }

  lemma FetchIsField(fs: seq<Field>, n: nat)
    requires AllOk(fs) && n < |fs|
    ensures Fetch(Package(fs), |Package(fs)|, Reached(n, From(fs, n)), Toggles)
            == Some((fs[n], Reached(n + 1, From(fs, n + 1))))
  {
    PackageNibble(fs, n);
    PayloadPlace(fs, n);
    assert FieldOk(fs[n]);
  }

  lemma FetchAllNext(mem: seq<byte>, end: nat, p: Position, n: nat, flip: Flip, fs: seq<Field>, q: Position, f: Field,
                     r: Position)
    requires FetchAll(mem, end, p, n, flip) == Some((fs, q)) && Fetch(mem, end, q, flip) == Some((f, r))
    ensures FetchAll(mem, end, p, n + 1, flip) == Some((fs + [f], r))
  {
  }

  /** The i-th fetch reads f and leads to the next position. */
  predicate LeadsOn(mem: seq<byte>, end: nat, flip: Flip, ps: seq<Position>, i: int, f: Field) {
    0 <= i && i + 1 < |ps| && Fetch(mem, end, ps[i], flip) == Some((f, ps[i + 1]))
  }

  lemma TakeOne(fs: seq<Field>, m: nat)
    requires m < |fs|
    ensures fs[..m] + [fs[m]] == fs[..m + 1]
  {
  }

  /** Fetches that lead from one position to the next make up the whole. */
  lemma {:induction false} FetchChain(mem: seq<byte>, end: nat, flip: Flip, fs: seq<Field>, ps: seq<Position>, n: nat)
    requires |ps| == |fs| + 1 && n <= |fs|
    requires forall i :: 0 <= i < |fs| ==> LeadsOn(mem, end, flip, ps, i, fs[i])
    ensures FetchAll(mem, end, ps[0], n, flip) == Some((fs[..n], ps[n]))
  {
    if n == 0 {
      assert fs[..0] == [];
    } else {
      var m: nat := n - 1;
      FetchChain(mem, end, flip, fs, ps, m);
      TakeOne(fs, m);
      var f, q, r := fs[m], ps[m], ps[m + 1];
      assert Fetch(mem, end, q, flip) == Some((f, r)) by { assert LeadsOn(mem, end, flip, ps, m, fs[m]); }
      FetchAllNext(mem, end, ps[0], m, flip, fs[..m], q, f, r);
    }
  }

  /** Where the reader of a package stands between two values. */
  function Stops(fs: seq<Field>): (ps: seq<Position>)
    ensures |ps| == |fs| + 1 && forall i :: 0 <= i <= |fs| ==> ps[i] == Reached(i, From(fs, i))
  {
    seq(|fs| + 1, i requires 0 <= i <= |fs| => Reached(i, From(fs, i)))
  }

  lemma StopLeadsOn(fs: seq<Field>, i: nat)
    requires AllOk(fs) && i < |fs|
    ensures LeadsOn(Package(fs), |Package(fs)|, Toggles, Stops(fs), i, fs[i])
  {
    FetchIsField(fs, i);
  }

  lemma FirstStop(fs: seq<Field>)
    ensures From(fs, 0) == (|fs| + 1) / 2
  {
    assert Payloads(fs[..0]) == [];
  }

  lemma FetchesFields(fs: seq<Field>)
    requires AllOk(fs)
    ensures FetchAll(Package(fs), |Package(fs)|, Reached(0, (|fs| + 1) / 2), |fs|, Toggles)
            == Some((fs, Reached(|fs|, From(fs, |fs|))))
  {
    forall i | 0 <= i < |fs| ensures LeadsOn(Package(fs), |Package(fs)|, Toggles, Stops(fs), i, fs[i]) {
      StopLeadsOn(fs, i);
    }
    FirstStop(fs);
    FetchChain(Package(fs), |Package(fs)|, Toggles, fs, Stops(fs), |fs|);
    assert fs[..|fs|] == fs;
  }

  lemma {:induction false} PackageTotal(fs: seq<Field>, n: nat)
    requires AllOk(fs) && n <= |fs|
    ensures TotalAnnounced(Package(fs), n) == |Payloads(fs[..n])|
  {
    if n > 0 {
      PackageNibble(fs, n - 1);
      PackageTotal(fs, n - 1);
      PayloadsSnoc(fs[..n - 1], fs[n - 1]);
      assert fs[..n] == fs[..n - 1] + [fs[n - 1]];
      assert FieldOk(fs[n - 1]);
    }
  }

  /** The end the reader computes is the end of the package, below the stated bound. */
  lemma AnnouncedEnd(fs: seq<Field>)
    requires AllOk(fs) && 8 * |fs| < TWO32
    ensures EndOf(Package(fs), |fs|) == |Package(fs)|
  {
    PackageTotal(fs, |fs|);
    assert fs[..|fs|] == fs;
    PayloadsBound(fs);
  }

  function Kinds(xs: seq<Item>): (ks: seq<Kind>)
    ensures |ks| == |xs| && forall i :: 0 <= i < |xs| ==> ks[i] == xs[i].kind
  {
    seq(|xs|, i requires 0 <= i < |xs| => xs[i].kind)
  }

  function Values(xs: seq<Item>): (vs: seq<int>)
    ensures |vs| == |xs| && forall i :: 0 <= i < |xs| ==> vs[i] == xs[i].value
  {
    seq(|xs|, i requires 0 <= i < |xs| => xs[i].value)
  }

  lemma DecodesBack(xs: seq<Item>)
    requires AllFit(xs)
    ensures Decode(Fields(xs), Kinds(xs)) == Values(xs)
  {
    forall i | 0 <= i < |xs| ensures Decode(Fields(xs), Kinds(xs))[i] == Values(xs)[i] {
      ValueRoundTrip(xs[i]);
    }
  }

  /** A reader set up on a package fetches its fields and reaches the announced end exactly
      after the last one. */
  lemma PackageFetched(fs: seq<Field>)
    requires AllOk(fs) && 8 * |fs| < TWO32
    ensures var mem, n := Package(fs), |fs|;
            FetchAll(mem, EndOf(mem, n), Reached(0, (n + 1) / 2), n, Toggles) == Some((fs, Reached(n, EndOf(mem, n))))
  {
    AnnouncedEnd(fs);
    FetchesFields(fs);
    assert fs[..|fs|] == fs;
  }

  /** There the assertion of a further get_next fails. */
  lemma EndStops(fs: seq<Field>, flip: Flip)
    requires AllOk(fs) && 8 * |fs| < TWO32
    ensures var mem, n := Package(fs), |fs|; Fetch(mem, EndOf(mem, n), Reached(n, EndOf(mem, n)), flip) == None
  {
  }

  /** Any list of values is read back from its package with the same types, and the reader
      reaches the announced end exactly after the last value. */
  lemma StreamRoundTrip(xs: seq<Item>)
    requires AllFit(xs) && 8 * |xs| < TWO32
    ensures AllOk(Fields(xs)) && Decode(Fields(xs), Kinds(xs)) == Values(xs)
    ensures var mem, n := Package(Fields(xs)), |xs|;
            FetchAll(mem, EndOf(mem, n), Reached(0, (n + 1) / 2), n, Toggles)
            == Some((Fields(xs), Reached(n, EndOf(mem, n))))
  {
    var fs := Fields(xs);
    assert AllOk(fs) by { FieldsOk(xs); }
    assert Decode(fs, Kinds(xs)) == Values(xs) by { DecodesBack(xs); }
    PackageFetched(fs);
  }

  /** Packing a list, storing its codes and reading it back with get_next gives the list, on
      the real buffer and the real reader. */
  method PackAndRead(xs: seq<Item>) returns (values: seq<int>)
    requires AllFit(xs) && 8 * |xs| < TWO32
    ensures values == Values(xs)
  {
    var buffer := new byte[8 * |xs|];
    var end, codes := PackStream(buffer, 0, xs);
    StreamRoundTrip(xs);
    CodesFit(Fields(xs));
    var mem := NibbleBytes(codes) + buffer[..end];
    assert mem == Package(Fields(xs));
    var reader := new Nibbler(mem, |xs|, Toggles);
    values := reader.GetAll(Kinds(xs));
  }
}
