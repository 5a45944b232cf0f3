/** The reader of Packer.h as written: line 197 compares is_first_nibble with itself instead of
    flipping it, so every value is decoded with the first one's code. */
module NibbleSlip {
  import opened Prelude
  import opened Packer
  import opened NibbleStream

  /** A reader that never flips uses the first code for every value. */
  lemma {:induction false} AsWrittenCodes(mem: seq<byte>, end: nat, p: Position, n: nat)
    requires p.first
    ensures var r := FetchAll(mem, end, p, n, Compares);
            r.Some? ==> && |r.value.0| == n && r.value.1.first && r.value.1.nibble == p.nibble
                        && (n > 0 ==> p.nibble < |mem|)
                        && (forall i :: 0 <= i < n ==> r.value.0[i].code == NibbleAt(mem, 2 * p.nibble))
  {
    if n > 0 { AsWrittenCodes(mem, end, p, n - 1); }
  }

  /** As written the second of two values is decoded with the first one's code: packing 1
      and 300 reads back 1 and 44. */
  lemma AsWrittenMisreads()
    ensures var fs := [Field(1, [1]), Field(2, [44, 1])];
            fs == Fields([Item(U32, 1), Item(U32, 300)]) && AllOk(fs)
            && FetchAll(Package(fs), 4, Position(0, true, 1), 2, Compares)
               == Some(([Field(1, [1]), Field(1, [44])], Position(0, true, 3)))
            && Decode([Field(1, [1]), Field(1, [44])], [U32, U32]) == [1, 44]
  {
    var fs := [Field(1, [1]), Field(2, [44, 1])];
    assert FieldOf(Item(U32, 1)) == fs[0] by { assert LittleEndian(1, 1) == [1]; }
    assert FieldOf(Item(U32, 300)) == fs[1] by { assert LittleEndian(300, 2) == [44, 1]; }
    MisreadPackage();
    assert FromLittleEndian([1]) == 1 && FromLittleEndian([44]) == 44;
  }

  lemma MisreadPackage()
    ensures var fs := [Field(1, [1]), Field(2, [44, 1])];
            AllOk(fs) && FetchAll(Package(fs), 4, Position(0, true, 1), 2, Compares)
                         == Some(([Field(1, [1]), Field(1, [44])], Position(0, true, 3)))
  {
    var fs := [Field(1, [1]), Field(2, [44, 1])];
    CodesFit(fs);
    assert Codes(fs) == [1, 2] && NibbleBytes(Codes(fs)) == [33];
    assert Payloads(fs) == [1] + [44, 1] by {
      assert fs[1..] == [fs[1]] && Payloads([fs[1]]) == [44, 1] + Payloads([]);
    }
    var mem := Package(fs);
    assert mem == [33, 1, 44, 1] && mem[1..2] == [1] && mem[2..3] == [44];
    var p, q, r := Position(0, true, 1), Position(0, true, 2), Position(0, true, 3);
    assert Fetch(mem, 4, p, Compares) == Some((Field(1, [1]), q));
    assert Fetch(mem, 4, q, Compares) == Some((Field(1, [44]), r));
    assert [Field(1, [1])] + [Field(1, [44])] == [Field(1, [1]), Field(1, [44])];
    assert FetchAll(mem, 4, p, 1, Compares) == Some(([Field(1, [1])], q)) by {
      assert FetchAll(mem, 4, p, 0, Compares) == Some(([], p)) && [] + [Field(1, [1])] == [Field(1, [1])];
    }
  }

  // ---------------------------------------------------------------- what it reads

  /** Where the i-th of pieces of w bytes starts. */
  function Nth(start: nat, w: nat, i: nat): nat {
    if i == 0 then start else Nth(start, w, i - 1) + w
  }

  lemma {:induction false} NthGrows(start: nat, w: nat, i: nat, n: nat)
    requires i <= n
    ensures Nth(start, w, i) + (n - i) * w == Nth(start, w, n)
    decreases n
  {
    if i < n {
      NthGrows(start, w, i, n - 1);
      assert (n - 1 - i) * w + w == (n - i) * w;
    }
  }

  /** The i-th piece, read with the first code. */
  function PieceAt(mem: seq<byte>, start: nat, i: nat): Field
    requires mem != [] && Nth(start, Consumed(NibbleAt(mem, 0)), i + 1) <= |mem|
  {
    var w := Consumed(NibbleAt(mem, 0));
    Field(NibbleAt(mem, 0), mem[Nth(start, w, i)..Nth(start, w, i + 1)])
  }

  /** The reader succeeds exactly while there are bytes for equal pieces. */
  lemma {:induction false} AsWrittenSucceeds(mem: seq<byte>, start: nat, n: nat)
    requires mem != [] && 1 <= NibbleAt(mem, 0) && start <= |mem|
    ensures var w := Consumed(NibbleAt(mem, 0)); var r := FetchAll(mem, |mem|, Position(0, true, start), n, Compares);
            && (r.Some? <==> Nth(start, w, n) <= |mem|)
            && (r.Some? ==> r.value.1 == Position(0, true, Nth(start, w, n)))
  {
    if n > 0 { AsWrittenSucceeds(mem, start, n - 1); }
  }

  predicate IsPieceAt(f: Field, mem: seq<byte>, start: nat, i: nat)
    requires mem != []
  {
    Nth(start, Consumed(NibbleAt(mem, 0)), i + 1) <= |mem| && f == PieceAt(mem, start, i)
  }

  lemma NextPiece(mem: seq<byte>, start: nat, i: nat)
    requires mem != [] && 1 <= NibbleAt(mem, 0)
    requires Fetch(mem, |mem|, Position(0, true, Nth(start, Consumed(NibbleAt(mem, 0)), i)), Compares).Some?
    ensures IsPieceAt(Fetch(mem, |mem|, Position(0, true, Nth(start, Consumed(NibbleAt(mem, 0)), i)), Compares).value.0,
                      mem, start, i)
  {
  }

  /** And those pieces, one behind the other, are what it reads. */
  lemma {:induction false} AsWrittenPieces(mem: seq<byte>, start: nat, n: nat)
    requires mem != [] && 1 <= NibbleAt(mem, 0) && start <= |mem|
    requires FetchAll(mem, |mem|, Position(0, true, start), n, Compares).Some?
    ensures var r := FetchAll(mem, |mem|, Position(0, true, start), n, Compares).value.0;
            |r| == n && forall i :: 0 <= i < n ==> IsPieceAt(r[i], mem, start, i)
  {
    if n > 0 {
      AsWrittenSucceeds(mem, start, n - 1);
      AsWrittenPieces(mem, start, n - 1);
      NextPiece(mem, start, n - 1);
    }
  }

  // ---------------------------------------------------------------- one value

  /** The two values a magnitude code reads rightly although pack gives them another code:
      they equal their own negation. */
  predicate Twin(x: Item, code: nat) {
    (code == 9 && x.value == 0)
    || (code == 12 && ((x.kind.U32? && x.value == 0x8000_0000) || (x.kind.I32? && x.value == -0x8000_0000)))
  }

  predicate Suited(x: Item, code: nat)
    requires Fits(x)
  {
    Code(x) == code || Twin(x, code)
  }

  /** An unsigned value that a negated number of w bytes wraps around to. */
  predicate Wrapped(x: Item, w: nat) {
    (x.kind.U32? && w < 4 && x.value > TWO32 - Pow256(w)) || (x.kind.U64? && w < 8 && x.value > TWO64 - Pow256(w))
  }

  /** On a value's own bytes, a code of the same length reads it exactly when it is suited. */
  lemma OwnBytes(x: Item, code: nat)
    requires Fits(x) && 1 <= code < 16 && Kept(x) == Consumed(code)
    ensures Unpack(x.kind, LittleEndian(Payload(x), Kept(x)), code) == x.value <==> Suited(x, code)
  {
    CodeRange(x);
    Pow256Values();
    WidthIsFewest(Payload(x), 8);
    BytesRoundTrip(Payload(x), Kept(x));
    CastBack(x);
    if Code(x) != code { OtherSign(x, code); }
  }

  function Modulus(k: Kind): nat {
    if Size(k) == 4 then TWO32 else TWO64
  }

  predicate Signed(k: Kind) {
    k.I32? || k.I64?
  }

  lemma CastPlus(k: Kind, v: int)
    requires 0 <= v < Modulus(k)
    ensures Cast(k, v) == if Signed(k) && 2 * v >= Modulus(k) then v - Modulus(k) else v
  {
  }

  lemma CastMinus(k: Kind, v: int)
    requires 0 <= v < Modulus(k)
    ensures Cast(k, -v) == if v == 0 then 0 else if Signed(k) && 2 * v <= Modulus(k) then -v else Modulus(k) - v
  {
  }

  lemma OtherSign(x: Item, code: nat)
    requires Fits(x) && 1 <= code < 16 && Kept(x) == Consumed(code) && Code(x) != code
    ensures (if code <= 8 then Cast(x.kind, Cast(I64, Payload(x))) else Cast(x.kind, -Cast(I64, Payload(x)))) == x.value
       <==> Twin(x, code)
  {
    var p := Payload(x);
    CodeRange(x);
    Pow256Values();
    WidthIsFewest(p, 8);
    CastPlus(I64, p);
    if code <= 8 {
      assert Negated(x);
      CastPlus(x.kind, p);
    } else {
      assert !Negated(x) && p < 0x100_0000_0000_0000;
      CastMinus(x.kind, p);
      ItsOwnNegation(x, code);
    }
  }

  lemma ItsOwnNegation(x: Item, code: nat)
    requires Fits(x) && 9 <= code < 16 && Code(x) == code - 8
    ensures Payload(x) == 0 || 2 * Payload(x) == Modulus(x.kind) <==> Twin(x, code)
  {
  }

  /** No other bytes of the code's length can read a value that needs more room, unless it is
      a wrapped one. */
  lemma RoomNeeded(x: Item, bs: seq<byte>, code: nat)
    requires Fits(x) && 1 <= code < 16 && |bs| == Consumed(code) && Unpack(x.kind, bs, code) == x.value
    requires code <= 8 || !Wrapped(x, |bs|)
    ensures Kept(x) <= |bs|
  {
    if Kept(x) > |bs| {
      CodeRange(x);
      Pow256Values();
      BytesBound(bs);
      WidthIsFewest(Payload(x), |bs|);
      PowStep(|bs|, 7);
      NoRoom(x, FromLittleEndian(bs), |bs|, code);
    }
  }

  lemma NoRoom(x: Item, q: nat, w: nat, code: nat)
    requires Fits(x) && 1 <= w < Kept(x) && q < Pow256(w) <= Payload(x) && Pow256(w) <= Pow256(7)
    requires code <= 8 || !Wrapped(x, w)
    ensures (if code <= 8 then Cast(x.kind, Cast(I64, q)) else Cast(x.kind, -Cast(I64, q))) != x.value
  {
    CodeRange(x);
    Pow256Values();
    CastPlus(I64, q);
    if code <= 8 {
      CastPlus(x.kind, q);
    } else {
      CastMinus(x.kind, q);
      if w > 3 { assert Size(x.kind) == 8; } else { PowStep(w, 3); }
    }
  }

  // ---------------------------------------------------------------- a whole list

  lemma {:induction false} PayloadsLength(fs: seq<Field>, w: nat, start: nat)
    requires forall i :: 0 <= i < |fs| ==> |fs[i].bytes| <= w
    ensures start + |Payloads(fs)| <= Nth(start, w, |fs|)
    ensures start + |Payloads(fs)| == Nth(start, w, |fs|) <==> forall i :: 0 <= i < |fs| ==> |fs[i].bytes| == w
    decreases |fs|
  {
    if fs != [] {
      var n := |fs| - 1;
      PayloadsLength(fs[..n], w, start);
      assert fs == fs[..n] + [fs[n]];
      PayloadsSnoc(fs[..n], fs[n]);
      assert (forall i :: 0 <= i < |fs| ==> |fs[i].bytes| == w)
        <==> |fs[n].bytes| == w && forall i :: 0 <= i < n ==> |fs[..n][i].bytes| == w;
    }
  }

  /** With payloads of one length every piece is a payload. */
  lemma PieceIsPayload(fs: seq<Field>, w: nat, i: nat)
    requires AllOk(fs) && i < |fs| && w == Consumed(fs[0].code)
    requires forall k :: 0 <= k < |fs| ==> |fs[k].bytes| == w
    ensures IsPieceAt(Field(fs[0].code, fs[i].bytes), Package(fs), (|fs| + 1) / 2, i)
  {
    var start := (|fs| + 1) / 2;
    PackageNibble(fs, 0);
    PayloadPlace(fs, i);
    PayloadsLength(fs[..i], w, start);
    PayloadsLength(fs[..i + 1], w, start);
  }

  /** What the reader as written makes of the package of a list: the list itself. */
  ghost predicate ReadsBack(xs: seq<Item>)
    requires AllFit(xs) && AllOk(Fields(xs))
  {
    var mem := Package(Fields(xs));
    var r := FetchAll(mem, EndOf(mem, |xs|), Reached(0, (|xs| + 1) / 2), |xs|, Compares);
    r.Some? && |r.value.0| == |xs| && Decode(r.value.0, Kinds(xs)) == Values(xs)
  }

  predicate AllSuited(xs: seq<Item>)
    requires AllFit(xs) && xs != []
  {
    forall i :: 0 <= i < |xs| ==> Suited(xs[i], Code(xs[0]))
  }

  predicate NoneWrapped(xs: seq<Item>, w: nat) {
    forall i :: 0 <= i < |xs| ==> !Wrapped(xs[i], w)
  }

  lemma SuitedLength(x: Item, code: nat)
    requires Fits(x) && 1 <= code < 16 && Suited(x, code)
    ensures Kept(x) == Consumed(code)
  {
    CodeRange(x);
  }

  lemma SuitedReadsBack(xs: seq<Item>)
    requires AllFit(xs) && xs != [] && 8 * |xs| < TWO32 && AllSuited(xs)
    ensures AllOk(Fields(xs)) && ReadsBack(xs)
  {
    FieldsOk(xs);
    var fs, start := Fields(xs), (|xs| + 1) / 2;
    var mem, code := Package(fs), fs[0].code;
    assert FieldOk(fs[0]);
    forall i | 0 <= i < |fs| ensures |fs[i].bytes| == Consumed(code) { SuitedLength(xs[i], code); }
    AnnouncedEnd(fs);
    PackageNibble(fs, 0);
    PayloadsLength(fs, Consumed(code), start);
    AsWrittenSucceeds(mem, start, |xs|);
    AsWrittenPieces(mem, start, |xs|);
    var r := FetchAll(mem, |mem|, Position(0, true, start), |xs|, Compares).value.0;
    forall i | 0 <= i < |xs| ensures Decode(r, Kinds(xs))[i] == Values(xs)[i] {
      PieceIsPayload(fs, Consumed(code), i);
      OwnBytes(xs[i], code);
    }
  }

  lemma PieceSize(f: Field, mem: seq<byte>, start: nat, i: nat)
    requires mem != [] && IsPieceAt(f, mem, start, i)
    ensures f.code == NibbleAt(mem, 0) && |f.bytes| == Consumed(f.code)
  {
  }

  /** What was read, when the list came back: equal pieces, for which the bytes lasted. */
  ghost predicate CameBack(xs: seq<Item>, r: seq<Field>)
    requires AllFit(xs) && xs != [] && AllOk(Fields(xs))
  {
    && |r| == |xs| && Decode(r, Kinds(xs)) == Values(xs)
    && (forall i :: 0 <= i < |xs| ==>
          && IsPieceAt(r[i], Package(Fields(xs)), (|xs| + 1) / 2, i)
          && r[i].code == Code(xs[0]) && |r[i].bytes| == Kept(xs[0]))
    && Nth((|xs| + 1) / 2, Kept(xs[0]), |xs|) <= |Package(Fields(xs))|
  }

  lemma ReadBackPieces(xs: seq<Item>)
    requires AllFit(xs) && xs != [] && 8 * |xs| < TWO32 && AllOk(Fields(xs))
    ensures ReadsBack(xs) ==> exists r :: CameBack(xs, r)
  {
    if ReadsBack(xs) {
      var start, mem := (|xs| + 1) / 2, Package(Fields(xs));
      CodeRange(xs[0]);
      AnnouncedEnd(Fields(xs));
      PackageNibble(Fields(xs), 0);
      AsWrittenSucceeds(mem, start, |xs|);
      AsWrittenPieces(mem, start, |xs|);
      var r := FetchAll(mem, |mem|, Position(0, true, start), |xs|, Compares).value.0;
      forall i | 0 <= i < |xs| ensures |r[i].bytes| == Kept(xs[0]) && r[i].code == Code(xs[0]) {
        PieceSize(r[i], mem, start, i);
      }
      assert CameBack(xs, r);
    }
  }

  lemma ReadBackLengths(xs: seq<Item>, r: seq<Field>)
    requires AllFit(xs) && xs != [] && AllOk(Fields(xs))
    ensures CameBack(xs, r) && (Code(xs[0]) <= 8 || NoneWrapped(xs, Kept(xs[0]))) ==>
              forall i :: 0 <= i < |xs| ==> Kept(xs[i]) == Kept(xs[0])
  {
    if CameBack(xs, r) && (Code(xs[0]) <= 8 || NoneWrapped(xs, Kept(xs[0]))) {
      var fs, w := Fields(xs), Kept(xs[0]);
      CodeRange(xs[0]);
      forall i | 0 <= i < |fs| ensures |fs[i].bytes| <= w {
        assert Decode(r, Kinds(xs))[i] == Values(xs)[i];
        RoomNeeded(xs[i], r[i].bytes, r[i].code);
      }
      PayloadsLength(fs, w, (|xs| + 1) / 2);
      forall i | 0 <= i < |xs| ensures Kept(xs[i]) == w {
        assert |fs[i].bytes| == w;
      }
    }
  }

  lemma SamePiece(f: Field, g: Field, mem: seq<byte>, start: nat, i: nat)
    requires mem != [] && IsPieceAt(f, mem, start, i) && IsPieceAt(g, mem, start, i)
    ensures f == g
  {
  }

  lemma PieceSuited(xs: seq<Item>, f: Field, i: nat)
    requires AllFit(xs) && AllOk(Fields(xs)) && i < |xs|
    requires forall k :: 0 <= k < |xs| ==> Kept(xs[k]) == Kept(xs[0])
    requires IsPieceAt(f, Package(Fields(xs)), (|xs| + 1) / 2, i) && Unpack(xs[i].kind, f.bytes, f.code) == xs[i].value
    ensures Suited(xs[i], Code(xs[0]))
  {
    var own := Field(Code(xs[0]), FieldOf(xs[i]).bytes);
    CodeRange(xs[0]);
    PieceIsPayload(Fields(xs), Kept(xs[0]), i);
    SamePiece(f, own, Package(Fields(xs)), (|xs| + 1) / 2, i);
    OwnBytes(xs[i], Code(xs[0]));
  }

  lemma ReadBackSuited(xs: seq<Item>, r: seq<Field>)
    requires AllFit(xs) && xs != [] && AllOk(Fields(xs))
    requires forall i :: 0 <= i < |xs| ==> Kept(xs[i]) == Kept(xs[0])
    ensures CameBack(xs, r) ==> AllSuited(xs)
  {
    if CameBack(xs, r) {
      forall i | 0 <= i < |xs| ensures Suited(xs[i], Code(xs[0])) {
        assert Decode(r, Kinds(xs))[i] == Values(xs)[i];
        PieceSuited(xs, r[i], i);
      }
    }
  }

  /** The reader as written reads a list back when every value is suited to the first one's
      code. Where that code is not a negated one, or no value is a wrapped one for it, this is
      exactly when it does. */
  lemma AsWrittenReadsBack(xs: seq<Item>)
    requires AllFit(xs) && xs != [] && 8 * |xs| < TWO32
    ensures AllOk(Fields(xs))
    ensures AllSuited(xs) ==> ReadsBack(xs)
    ensures Code(xs[0]) <= 8 || NoneWrapped(xs, Kept(xs[0])) ==> (ReadsBack(xs) <==> AllSuited(xs))
  {
    FieldsOk(xs);
    if AllSuited(xs) { SuitedReadsBack(xs); }
    if ReadsBack(xs) && (Code(xs[0]) <= 8 || NoneWrapped(xs, Kept(xs[0]))) {
      ReadBackPieces(xs);
      var r :| CameBack(xs, r);
      ReadBackLengths(xs, r);
      ReadBackSuited(xs, r);
    }
  }

  /** Two values of different codes that are read back all the same: the second is its own
      negation at its type. */
  lemma TwinReadsBack()
    ensures var xs := [Item(I64, -0x8000_0000), Item(I32, -0x8000_0000)];
            AllFit(xs) && AllOk(Fields(xs)) && Code(xs[0]) == 12 && Code(xs[1]) == 4 && ReadsBack(xs)
  {
    SuitedReadsBack([Item(I64, -0x8000_0000), Item(I32, -0x8000_0000)]);
  }

  lemma WrappedPayloads()
    ensures var fs := [Field(9, [1]), Field(4, [128, 255, 255, 255])];
            && AllOk(fs) && Payloads(fs) == [1, 128, 255, 255, 255]
            && fs == Fields([Item(I32, -1), Item(U32, 0xFFFF_FF80)])
  {
    var fs := [Field(9, [1]), Field(4, [128, 255, 255, 255])];
    assert FieldOf(Item(I32, -1)) == fs[0] by { assert LittleEndian(1, 1) == [1]; }
    assert LittleEndian(0xFF_FFFF, 3) == [255, 255, 255] by {
      assert LittleEndian(0xFF, 1) == [255] && LittleEndian(0xFFFF, 2) == [255] + LittleEndian(0xFF, 1);
    }
    assert FieldOf(Item(U32, 0xFFFF_FF80)) == fs[1];
    assert Payloads(fs) == [1] + [128, 255, 255, 255] by {
      assert fs[1..] == [fs[1]] && Payloads([fs[1]]) == fs[1].bytes + Payloads([]);
    }
  }

  // ---------------------------------------------------------------- the condition on the bytes

  lemma SameRemainder(m: nat, a: int, b: int)
    requires m == TWO32 || m == TWO64
    ensures (a - b) % m == 0 <==> a % m == b % m
  {
  }

  lemma CastMeans(x: Item, v: int)
    requires Fits(x)
    ensures Cast(x.kind, v) == x.value <==> (v - x.value) % Modulus(x.kind) == 0
  {
    var m := Modulus(x.kind);
    SameRemainder(m, v, x.value);
    assert x.value % m == if x.value >= 0 then x.value else x.value + m;
  }

  /** A piece with the number q reads as the value: it is congruent to the value, or for a
      magnitude code to its negation, at the type's width. */
  predicate ReadsAs(x: Item, q: int, code: nat) {
    (if code <= 8 then q - x.value else q + x.value) % Modulus(x.kind) == 0
  }

  lemma SignedForm(q: nat)
    requires q < TWO64
    ensures Cast(I64, q) == q || Cast(I64, q) == q - TWO64
  {
  }

  lemma UnpackMeans(x: Item, bs: seq<byte>, code: nat)
    requires Fits(x) && |bs| <= 8
    ensures Unpack(x.kind, bs, code) == x.value <==> ReadsAs(x, FromLittleEndian(bs), code)
  {
    var q := FromLittleEndian(bs);
    assert q < TWO64 by {
      BytesBound(bs);
      Pow256Values();
      PowStep(|bs|, 8);
    }
    SignedForm(q);
    NumberMeans(x, q, Cast(I64, q));
  }

  lemma NumberMeans(x: Item, q: int, p: int)
    requires Fits(x) && (p == q || p == q - TWO64)
    ensures Cast(x.kind, p) == x.value <==> (q - x.value) % Modulus(x.kind) == 0
    ensures Cast(x.kind, -p) == x.value <==> (q + x.value) % Modulus(x.kind) == 0
  {
    CastMeans(x, p);
    CastMeans(x, -p);
    TurnsAway(Modulus(x.kind), q, p, x.value);
  }

  /** A whole turn of 2^64, and a change of sign, do not matter to divisibility. */
  lemma TurnsAway(m: nat, q: int, p: int, v: int)
    requires (m == TWO32 || m == TWO64) && (p == q || p == q - TWO64)
    ensures (p - v) % m == (q - v) % m
    ensures (-p - v) % m == 0 <==> (q + v) % m == 0
  {
    OneTurn(m, q - v);
    OneTurn(m, q + v);
    Negation(m, p + v);
  }

  lemma OneTurn(m: nat, t: int)
    requires m == TWO32 || m == TWO64
    ensures (t - TWO64) % m == t % m
  {
  }

  lemma Negation(m: nat, t: int)
    requires m == TWO32 || m == TWO64
    ensures (-t) % m == 0 <==> t % m == 0
  {
  }

  /** The number in the i-th of pieces of w bytes. */
  function PieceNumber(bs: seq<byte>, w: nat, i: nat): nat
    requires Nth(0, w, i + 1) <= |bs|
  {
    FromLittleEndian(bs[Nth(0, w, i)..Nth(0, w, i + 1)])
  }

  predicate PieceSuits(x: Item, bs: seq<byte>, w: nat, i: nat, code: nat) {
    Nth(0, w, i + 1) <= |bs| && ReadsAs(x, PieceNumber(bs, w, i), code)
  }

  predicate PiecesReadAs(xs: seq<Item>, bs: seq<byte>, w: nat, code: nat) {
    forall i :: 0 <= i < |xs| ==> PieceSuits(xs[i], bs, w, i, code)
  }

  lemma {:induction false} NthShift(start: nat, w: nat, i: nat)
    ensures Nth(start, w, i) == start + Nth(0, w, i)
  {
    if i > 0 { NthShift(start, w, i - 1); }
  }

  lemma PieceOfPayloads(fs: seq<Field>, i: nat)
    requires AllOk(fs) && fs != []
    requires Nth(0, Consumed(fs[0].code), i + 1) <= |Payloads(fs)|
    ensures var w, bs := Consumed(fs[0].code), Payloads(fs);
            IsPieceAt(Field(fs[0].code, bs[Nth(0, w, i)..Nth(0, w, i + 1)]), Package(fs), (|fs| + 1) / 2, i)
  {
    var w, start := Consumed(fs[0].code), (|fs| + 1) / 2;
    PackageNibble(fs, 0);
    NthShift(start, w, i);
    NthShift(start, w, i + 1);
    CodesFit(fs);
    SliceBehind(NibbleBytes(Codes(fs)), Payloads(fs), Nth(0, w, i), Nth(0, w, i + 1));
  }

  lemma SliceBehind(a: seq<byte>, b: seq<byte>, from: nat, to: nat)
    requires from <= to <= |b|
    ensures (a + b)[|a| + from..|a| + to] == b[from..to]
  {
  }

  lemma PieceIsSlice(fs: seq<Field>, f: Field, i: nat)
    requires AllOk(fs) && fs != [] && IsPieceAt(f, Package(fs), (|fs| + 1) / 2, i)
    ensures var bs, w := Payloads(fs), Consumed(fs[0].code);
            Nth(0, w, i + 1) <= |bs| && f == Field(fs[0].code, bs[Nth(0, w, i)..Nth(0, w, i + 1)])
  {
    PackageNibble(fs, 0);
    NthShift((|fs| + 1) / 2, Consumed(fs[0].code), i + 1);
    PieceOfPayloads(fs, i);
  }

  lemma PieceMeans(xs: seq<Item>, f: Field, i: nat)
    requires AllFit(xs) && xs != [] && AllOk(Fields(xs)) && i < |xs|
    requires IsPieceAt(f, Package(Fields(xs)), (|xs| + 1) / 2, i)
    ensures Unpack(xs[i].kind, f.bytes, f.code) == xs[i].value
       <==> PieceSuits(xs[i], Payloads(Fields(xs)), Kept(xs[0]), i, Code(xs[0]))
  {
    assert FieldOk(Fields(xs)[0]);
    assert Consumed(Code(xs[0])) == Kept(xs[0]) by { CodeRange(xs[0]); }
    PieceIsSlice(Fields(xs), f, i);
    UnpackMeans(xs[i], f.bytes, f.code);
  }

  lemma PiecesDecode(xs: seq<Item>, r: seq<Field>)
    requires AllFit(xs) && xs != [] && AllOk(Fields(xs)) && |r| == |xs|
    requires forall i :: 0 <= i < |xs| ==> IsPieceAt(r[i], Package(Fields(xs)), (|xs| + 1) / 2, i)
    ensures Decode(r, Kinds(xs)) == Values(xs) <==> PiecesReadAs(xs, Payloads(Fields(xs)), Kept(xs[0]), Code(xs[0]))
  {
    var bs, w, code := Payloads(Fields(xs)), Kept(xs[0]), Code(xs[0]);
    var got, vs := Decode(r, Kinds(xs)), Values(xs);
    if got == vs {
      forall i | 0 <= i < |xs| ensures PieceSuits(xs[i], bs, w, i, code) {
        assert got[i] == vs[i];
        PieceMeans(xs, r[i], i);
      }
    } else {
      var i :| 0 <= i < |xs| && got[i] != vs[i];
      PieceMeans(xs, r[i], i);
      assert !PieceSuits(xs[i], bs, w, i, code);
    }
  }

  lemma TooFewPieces(xs: seq<Item>, bs: seq<byte>, w: nat, code: nat)
    requires xs != [] && Nth(0, w, |xs|) > |bs|
    ensures !PiecesReadAs(xs, bs, w, code)
  {
    var last := |xs| - 1;
    assert !PieceSuits(xs[last], bs, w, last, code);
  }

  /** Exactly when the reader as written reads a list back, for every list: cut in pieces of
      the first value's length, the payload bytes must last for all values and each piece must
      be congruent to its value. */
  lemma AsWrittenExactly(xs: seq<Item>)
    requires AllFit(xs) && xs != [] && 8 * |xs| < TWO32
    ensures AllOk(Fields(xs))
    ensures ReadsBack(xs) <==> PiecesReadAs(xs, Payloads(Fields(xs)), Kept(xs[0]), Code(xs[0]))
  {
    FieldsOk(xs);
    var fs, start, w := Fields(xs), (|xs| + 1) / 2, Kept(xs[0]);
    var mem := Package(fs);
    CodeRange(xs[0]);
    AnnouncedEnd(fs);
    PackageNibble(fs, 0);
    AsWrittenSucceeds(mem, start, |xs|);
    NthShift(start, w, |xs|);
    var r := FetchAll(mem, |mem|, Position(0, true, start), |xs|, Compares);
    if r.Some? {
      AsWrittenPieces(mem, start, |xs|);
      PiecesDecode(xs, r.value.0);
    } else {
      TooFewPieces(xs, Payloads(fs), w, Code(xs[0]));
    }
  }

  lemma WrappedPieces()
    ensures PiecesReadAs([Item(I32, -1), Item(U32, 0xFFFF_FF80)], [1, 128, 255, 255, 255], 1, 9)
  {
    var bs: seq<byte> := [1, 128, 255, 255, 255];
    assert Nth(0, 1, 1) == 1 && Nth(0, 1, 2) == 2;
    assert PieceNumber(bs, 1, 0) == 1 by { assert bs[0..1] == [1] && FromLittleEndian([1]) == 1; }
    assert PieceNumber(bs, 1, 1) == 128 by { assert bs[1..2] == [128] && FromLittleEndian([128]) == 128; }
  }

  lemma WrappedCodes()
    ensures var xs := [Item(I32, -1), Item(U32, 0xFFFF_FF80)];
            AllFit(xs) && Code(xs[0]) == 9 && Kept(xs[0]) == 1 && Code(xs[1]) == 4 && !AllSuited(xs)
  {
    var xs := [Item(I32, -1), Item(U32, 0xFFFF_FF80)];
    assert Code(xs[1]) == 4 && !Suited(xs[1], 9);
  }

  /** A wrapped value can be read back without being suited: -1 and 4294967168 come back,
      although the second is read from one byte of its four. */
  lemma WrappedReadsBack()
    ensures var xs := [Item(I32, -1), Item(U32, 0xFFFF_FF80)];
            AllFit(xs) && AllOk(Fields(xs)) && !AllSuited(xs) && ReadsBack(xs)
  {
    var xs := [Item(I32, -1), Item(U32, 0xFFFF_FF80)];
    WrappedCodes();
    AsWrittenExactly(xs);
    assert PiecesReadAs(xs, Payloads(Fields(xs)), 1, 9) by {
      WrappedPayloads();
      WrappedPieces();
    }
  }
}
