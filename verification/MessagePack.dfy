/** The part of MessagePack that log records are written in: unsigned integers in their shortest
    form, arrays, and 32-bit floats. Every reader returns the value and what follows it. */
module MessagePack {
  import opened Order
  import opened Bytes
  import opened CollectionModel

  datatype Read<+T> = Read(value: T, rest: seq<Byte>)

  // ---- Big-endian integers ----

  function ToBe(x: nat, n: nat): (bs: seq<Byte>)
    ensures |bs| == n
  {
    if n == 0 then [] else ToBe(x / 256, n - 1) + [x % 256]
  }

  function FromBe(bs: seq<Byte>): (x: nat)
    ensures x < Pow256(|bs|)
  {
    if bs == [] then 0 else 256 * FromBe(bs[..|bs| - 1]) + bs[|bs| - 1]
  }

  lemma {:induction false} BeRoundTrip(x: nat, n: nat)
    requires x < Pow256(n)
    ensures FromBe(ToBe(x, n)) == x
  {
    if n > 0 {
      BeRoundTrip(x / 256, n - 1);
      assert ToBe(x, n)[..n - 1] == ToBe(x / 256, n - 1);
    }
  }

  /** Reads `n` bytes as one integer. */
  function ReadBe(bs: seq<Byte>, n: nat): Option<Read<nat>> {
    if |bs| < n then None else Some(Read(FromBe(bs[..n]), bs[n..]))
  }

  lemma {:induction false} ReadBeBack(x: nat, n: nat, rest: seq<Byte>)
    requires x < Pow256(n)
    ensures ReadBe(ToBe(x, n) + rest, n) == Some(Read(x, rest))
  {
    BeRoundTrip(x, n);
    var bs := ToBe(x, n) + rest;
    assert bs[..n] == ToBe(x, n) && bs[n..] == rest;
  }

  // ---- Unsigned integers ----

  const NIL: Byte := 0xC0

  function UInt(x: nat): (bs: seq<Byte>)
    ensures 1 <= |bs| <= 9
  {
    if x < 128 then [x]
    else if x < 256 then [0xCC] + ToBe(x, 1)
    else if x < 65536 then [0xCD] + ToBe(x, 2)
    else if x < TWO32 then [0xCE] + ToBe(x, 4)
    else [0xCF] + ToBe(x, 8)
  }

  function ReadUInt(bs: seq<Byte>): Option<Read<nat>> {
    if bs == [] then None
    else if bs[0] < 128 then Some(Read(bs[0], bs[1..]))
    else if bs[0] == 0xCC then ReadBe(bs[1..], 1)
    else if bs[0] == 0xCD then ReadBe(bs[1..], 2)
    else if bs[0] == 0xCE then ReadBe(bs[1..], 4)
    else if bs[0] == 0xCF then ReadBe(bs[1..], 8)
    else None
  }

  lemma {:induction false} UIntRoundTrip(x: nat, rest: seq<Byte>)
    requires x < TWO64
    ensures ReadUInt(UInt(x) + rest) == Some(Read(x, rest))
  {
    hide ToBe, ReadBe;
    PowValues();
    var n := if x < 256 then 1 else if x < 65536 then 2 else if x < TWO32 then 4 else 8;
    var bs := UInt(x) + rest;
    if x >= 128 {
      ReadBeBack(x, n, rest);
      assert bs[1..] == ToBe(x, n) + rest;
    } else {
      assert bs[1..] == rest;
    }
  }

  // ---- Arrays ----

  function ArrayHeader(n: nat): (bs: seq<Byte>)
    ensures 1 <= |bs| <= 5
  {
    if n < 16 then [0x90 + n] else if n < 65536 then [0xDC] + ToBe(n, 2) else [0xDD] + ToBe(n, 4)
  }

  function ReadArrayHeader(bs: seq<Byte>): Option<Read<nat>> {
    if bs == [] then None
    else if 0x90 <= bs[0] < 0xA0 then Some(Read(bs[0] - 0x90, bs[1..]))
    else if bs[0] == 0xDC then ReadBe(bs[1..], 2)
    else if bs[0] == 0xDD then ReadBe(bs[1..], 4)
    else None
  }

  lemma {:induction false} ArrayHeaderRoundTrip(n: nat, rest: seq<Byte>)
    requires n < TWO32
    ensures ReadArrayHeader(ArrayHeader(n) + rest) == Some(Read(n, rest))
  {
    hide ToBe, ReadBe;
    PowValues();
    var bs := ArrayHeader(n) + rest;
    if n >= 16 {
      var width := if n < 65536 then 2 else 4;
      ReadBeBack(n, width, rest);
      assert bs[1..] == ToBe(n, width) + rest;
    } else {
      assert bs[1..] == rest;
    }
  }

  // ---- Vectors: arrays of floats ----

  function Floats(v: Vector): (bs: seq<Byte>)
    ensures |bs| == 5 * |v|
  {
    if v == [] then [] else [0xCA] + ToBe(v[0], 4) + Floats(v[1..])
  }

  function ReadFloats(bs: seq<Byte>, n: nat): Option<Read<Vector>> {
    if n == 0 then Some(Read([], bs))
    else if |bs| < 5 || bs[0] != 0xCA then None
    else
      PowValues();
      var first: Coordinate := FromBe(bs[1..5]);
      match ReadFloats(bs[5..], n - 1)
      case None => None
      case Some(r) => Some(Read([first] + r.value, r.rest))
  }

  lemma {:induction false} FloatsRoundTrip(v: Vector, rest: seq<Byte>)
    ensures ReadFloats(Floats(v) + rest, |v|) == Some(Read(v, rest))
  {
    var bs := Floats(v) + rest;
    if v == [] {
      assert bs == rest;
    } else {
      PowValues();
      BeRoundTrip(v[0], 4);
      FloatsRoundTrip(v[1..], rest);
      assert bs[0] == 0xCA && bs[1..5] == ToBe(v[0], 4) && bs[5..] == Floats(v[1..]) + rest;
      assert [v[0]] + v[1..] == v;
    }
  }

  function VectorBytes(v: Vector): (bs: seq<Byte>)
    ensures 1 + 5 * |v| <= |bs| <= 5 + 5 * |v|
  {
    ArrayHeader(|v|) + Floats(v)
  }

  function ReadVector(bs: seq<Byte>): Option<Read<Vector>> {
    match ReadArrayHeader(bs)
    case None => None
    case Some(r) => ReadFloats(r.rest, r.value)
  }

  lemma {:induction false} VectorRoundTrip(v: Vector, rest: seq<Byte>)
    requires |v| < TWO32
    ensures ReadVector(VectorBytes(v) + rest) == Some(Read(v, rest))
  {
    hide ArrayHeader, ReadArrayHeader, Floats, ReadFloats;
    ArrayHeaderRoundTrip(|v|, Floats(v) + rest);
    FloatsRoundTrip(v, rest);
    assert VectorBytes(v) + rest == ArrayHeader(|v|) + (Floats(v) + rest);
  }
}
