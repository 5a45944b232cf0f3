/** The variable-length integer codec of Packer.h: fewest-bytes little-endian payloads, a
    four-bit code for each, and the reader that walks both streams. */
module Packer {
  import opened Prelude

  type byte = b: int | 0 <= b < 256

  const TWO32: nat := 0x1_0000_0000
  const TWO64: nat := 0x1_0000_0000_0000_0000

  // ---------------------------------------------------------------- little-endian bytes

  function Pow256(k: nat): nat {
    if k == 0 then 1 else 256 * Pow256(k - 1)
  }

  /** The low n bytes of v in memory order. */
  function LittleEndian(v: nat, n: nat): (bs: seq<byte>)
    ensures |bs| == n
  {
    if n == 0 then [] else [v % 256] + LittleEndian(v / 256, n - 1)
  }

  function FromLittleEndian(bs: seq<byte>): nat {
    if bs == [] then 0 else bs[0] + 256 * FromLittleEndian(bs[1..])
  }

  lemma {:induction false} BytesRoundTrip(v: nat, n: nat)
    requires v < Pow256(n)
    ensures FromLittleEndian(LittleEndian(v, n)) == v
  {
    if n > 0 { BytesRoundTrip(v / 256, n - 1); }
  }

  lemma {:induction false} BytesPrefix(v: nat, n: nat, k: nat)
    requires k <= n
    ensures LittleEndian(v, n)[..k] == LittleEndian(v, k)
  {
    if k > 0 { BytesPrefix(v / 256, n - 1, k - 1); }
  }

  lemma {:induction false} BytesBound(bs: seq<byte>)
    ensures FromLittleEndian(bs) < Pow256(|bs|)
  {
    if bs != [] { BytesBound(bs[1..]); }
  }

  lemma Pow256Values()
    ensures Pow256(1) == 0x100 && Pow256(2) == 0x1_0000 && Pow256(3) == 0x100_0000 && Pow256(4) == TWO32
    ensures Pow256(5) == 0x100_0000_0000 && Pow256(6) == 0x1_0000_0000_0000
    ensures Pow256(7) == 0x100_0000_0000_0000 && Pow256(8) == TWO64
  {
    assert Pow256(2) == 256 * Pow256(1) && Pow256(4) == 256 * Pow256(3);
    assert Pow256(6) == 256 * Pow256(5) && Pow256(8) == 256 * Pow256(7);
  }

  // ---------------------------------------------------------------- packing

  datatype Kind = U32 | U64 | I32 | I64

  datatype Item = Item(kind: Kind, value: int)

  function Size(k: Kind): nat {
    if k.U32? || k.I32? then 4 else 8
  }

  predicate Fits(x: Item) {
    match x.kind
    case U32 => 0 <= x.value < TWO32
    case U64 => 0 <= x.value < TWO64
    case I32 => -0x8000_0000 <= x.value < 0x8000_0000
    case I64 => -0x8000_0000_0000_0000 <= x.value < 0x8000_0000_0000_0000
  }

  /** pack on an unsigned value: the number of bytes it keeps. */
  function Width(v: nat): (n: nat)
    ensures 1 <= n <= 8
  {
    if v < 0x100 then 1
    else if v < 0x1_0000 then 2
    else if v < 0x100_0000 then 3
    else if v < 0x1_0000_0000 then 4
    else if v < 0x100_0000_0000 then 5
    else if v < 0x1_0000_0000_0000 then 6
    else if v < 0x100_0000_0000_0000 then 7
    else 8
  }

  /** Width is the fewest bytes that hold the value. */
  lemma WidthIsFewest(v: nat, n: nat)
    requires v < TWO64
    ensures v < Pow256(Width(v))
    ensures 1 <= n && v < Pow256(n) ==> Width(v) <= n
  {
    Pow256Values();
    if 1 <= n < Width(v) {
      PowStep(n, Width(v) - 1);
    }
  }

  lemma {:induction false} PowStep(a: nat, b: nat)
    requires a <= b
    ensures Pow256(a) <= Pow256(b)
    decreases b - a
  {
    if a < b { PowStep(a, b - 1); }
  }

  /** A negative value close to zero is packed as its magnitude, any other in two's
      complement. */
  predicate Negated(x: Item) {
    (x.kind.I32? && -0x100_0000 < x.value < 0) || (x.kind.I64? && -0x100_0000_0000_0000 < x.value < 0)
  }

  /** The unsigned number that is written out. */
  function Payload(x: Item): nat
    requires Fits(x)
  {
    if x.value >= 0 then x.value
    else if Negated(x) then -x.value
    else x.value + (if x.kind.I32? then TWO32 else TWO64)
  }

  function Kept(x: Item): nat
    requires Fits(x)
  {
    Width(Payload(x))
  }

  /** What pack returns. */
  function Code(x: Item): nat
    requires Fits(x)
  {
    if Negated(x) then 8 + Kept(x) else Kept(x)
  }

  /** Every code fits four bits and none is 0. */
  lemma CodeRange(x: Item)
    requires Fits(x)
    ensures 1 <= Code(x) <= 15 && Kept(x) <= Size(x.kind) && Payload(x) < Pow256(Size(x.kind))
    ensures Code(x) <= 8 <==> !Negated(x)
  {
    Pow256Values();
  }

  /** The code in plain powers of 256. A value from 0 on has the code n exactly when n is the
      fewest bytes for it; a negative one with fewer than all but one byte of magnitude has 8
      more than the fewest bytes for that; any other takes all the bytes of its type. */
  lemma CodeMeans(x: Item, n: nat)
    requires Fits(x) && 1 <= n <= 8
    ensures x.value >= 0 ==> (Code(x) == n <==> x.value < Pow256(n) && (n == 1 || Pow256(n - 1) <= x.value))
    ensures x.value < 0 && -x.value < Pow256(Size(x.kind) - 1) ==>
              (Code(x) == 8 + n <==> -x.value < Pow256(n) && (n == 1 || Pow256(n - 1) <= -x.value))
    ensures x.value < 0 && -x.value >= Pow256(Size(x.kind) - 1) ==> Code(x) == Size(x.kind)
  {
    Pow256Values();
    WidthIs(Payload(x), n);
  }

  lemma WidthIs(v: nat, n: nat)
    requires v < TWO64 && 1 <= n <= 8
    ensures Width(v) == n <==> v < Pow256(n) && (n == 1 || Pow256(n - 1) <= v)
  {
    Pow256Values();
  }

  /** memcpy of sizeof(T) bytes, then an advance by the bytes kept. */
  method Pack(buffer: array<byte>, pos: nat, x: Item) returns (next: nat, code: nat)
    requires Fits(x) && pos + Size(x.kind) <= buffer.Length
    modifies buffer
    ensures code == Code(x) && next == pos + Kept(x) <= buffer.Length
    ensures buffer[pos..next] == LittleEndian(Payload(x), Kept(x))
    ensures forall k :: 0 <= k < buffer.Length && !(pos <= k < pos + Size(x.kind)) ==> buffer[k] == old(buffer[k])
  {
    CodeRange(x);
    var bytes := LittleEndian(Payload(x), Size(x.kind));
    BytesPrefix(Payload(x), Size(x.kind), Kept(x));
    forall k | 0 <= k < |bytes| { buffer[pos + k] := bytes[k]; }
    next := pos + Kept(x);
    code := Code(x);
    assert buffer[pos..next] == bytes[..Kept(x)];
  }

  // ---------------------------------------------------------------- unpacking

  /** Bytes unpack consumes for a code. */
  function Consumed(code: nat): nat
    requires code < 16
  {
    if code <= 8 then code else code - 8
  }

  /** static_cast to the requested type; every width wraps as two's complement does. */
  function Cast(k: Kind, x: int): int {
    match k
    case U32 => x % TWO32
    case U64 => x % TWO64
    case I32 => var r := x % TWO32; if r < 0x8000_0000 then r else r - TWO32
    case I64 => var r := x % TWO64; if r < 0x8000_0000_0000_0000 then r else r - TWO64
  }

  /** unpack: the bytes form an int64_t, negated for codes above 8. */
  function Unpack(k: Kind, bs: seq<byte>, code: nat): int {
    var package := Cast(I64, FromLittleEndian(bs));
    if code <= 8 then Cast(k, package) else Cast(k, -package)
  }

  lemma CastBack(x: Item)
    requires Fits(x)
    ensures !Negated(x) ==> Cast(x.kind, Cast(I64, Payload(x))) == x.value
    ensures Negated(x) ==> Cast(I64, Payload(x)) == -x.value && Cast(x.kind, x.value) == x.value
  {
  }

  // ---------------------------------------------------------------- fields

  /** A packed value: its code and the bytes kept for it. */
  datatype Field = Field(code: nat, bytes: seq<byte>)

  predicate FieldOk(f: Field) {
    1 <= f.code < 16 && |f.bytes| == Consumed(f.code)
  }

  function FieldOf(x: Item): Field
    requires Fits(x)
  {
    Field(Code(x), LittleEndian(Payload(x), Kept(x)))
  }

  /** One value survives, at every type and every value, the extremes included. */
  lemma ValueRoundTrip(x: Item)
    requires Fits(x)
    ensures FieldOk(FieldOf(x)) && Unpack(x.kind, FieldOf(x).bytes, FieldOf(x).code) == x.value
  {
    CodeRange(x);
    Pow256Values();
    WidthIsFewest(Payload(x), 8);
    BytesRoundTrip(Payload(x), Kept(x));
    CastBack(x);
  }
}
