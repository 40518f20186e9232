/** The layouts of the plain values the decoders read (`size_of` and the bytes'
    meaning on x86-64: little endian, two's complement, 8-byte pointers). */
module Layout {
  import opened Bytes
  import opened Errors
  import opened Wrappers
  import opened RemotePointer

  /** `c_void`: the pointee of an untyped pointer. */
  datatype CVoid = CVoid

  /** `c_char`. */
  datatype CChar = CChar

  /** An unsigned field of `n` bytes. */
  function Unsigned(b: seq<byte>, n: nat): (v: nat)
    ensures v < Pow256(n)
  {
    var s := Slice(b, 0, n);
    assert |s| <= n;
    PowMonotone(|s|, n);
    FromLE(s)
  }

  lemma {:induction false} PowMonotone(m: nat, n: nat)
    requires m <= n
    ensures Pow256(m) <= Pow256(n)
    decreases n
  {
    if m < n {
      PowMonotone(m, n - 1);
    }
  }

  function DecodeU8(b: seq<byte>): Result<byte>
  {
    Ok(Unsigned(b, 1))
  }

  function DecodeU32(b: seq<byte>): Result<nat>
  {
    Ok(Unsigned(b, 4))
  }

  /** `i8`, `i16`, `i32`: two's complement over exactly `n` bytes. */
  function SignedOf(b: seq<byte>, n: nat): int
  {
    Signed(Slice(b, 0, n))
  }

  function DecodeI8(b: seq<byte>): Result<int> { Ok(SignedOf(b, 1)) }

  function DecodeI16(b: seq<byte>): Result<int> { Ok(SignedOf(b, 2)) }

  function DecodeI32(b: seq<byte>): Result<int> { Ok(SignedOf(b, 4)) }

  /** `[u8; n]`: the bytes themselves. */
  function DecodeRaw(b: seq<byte>): Result<seq<byte>> { Ok(b) }

  const U8: Codec<byte> := Codec(1, DecodeU8)
  const U32: Codec<nat> := Codec(4, DecodeU32)
  const I8: Codec<int> := Codec(1, DecodeI8)
  const I16: Codec<int> := Codec(2, DecodeI16)
  const I32: Codec<int> := Codec(4, DecodeI32)

  function ByteArray(n: nat): Codec<seq<byte>>
  {
    Codec(n, DecodeRaw)
  }

  /** A pointer stored in the target: an 8-byte `usize`. */
  function Pointer<U>(): Codec<RemotePtr<U>>
  {
    Codec(8, b => Ok(RemotePtr(Unsigned(b, 8))))
  }

  /** `CPoint`: two `i32`, x then y. */
  datatype CPoint = CPoint(x: int, y: int)

  function DecodeCPoint(b: seq<byte>): Result<CPoint>
  {
    Ok(CPoint(Signed(Slice(b, 0, 4)), Signed(Slice(b, 4, 4))))
  }

  const Point: Codec<CPoint> := Codec(8, DecodeCPoint)

  // ----- every layout gives back the value that was stored -----

  lemma UnsignedRoundTrip(x: nat, n: nat)
    requires x < Pow256(n)
    ensures Unsigned(ToLE(x, n), n) == x
  {
    assert Slice(ToLE(x, n), 0, n) == ToLE(x, n);
    FromLEToLE(x, n);
  }

  lemma SignedOfRoundTrip(x: int, n: nat)
    requires 0 <= Pow256(n) + 2 * x && 2 * x < Pow256(n)
    ensures SignedOf(ToSignedLE(x, n), n) == x
  {
    assert Slice(ToSignedLE(x, n), 0, n) == ToSignedLE(x, n);
    SignedRoundTrip(x, n);
  }

  /** An `i16` field holds -32768..=32767, and every such value reads back as stored. */
  lemma I16Layout(x: int)
    requires -32768 <= x < 32768
    ensures Infallible(I16)
    ensures I16.decode(ToSignedLE(x, 2)) == Ok(x)
    ensures forall b :: -32768 <= SignedOf(b, 2) < 32768
  {
    assert Pow256(2) == 65536;
    SignedOfRoundTrip(x, 2);
    forall b ensures -32768 <= SignedOf(b, 2) < 32768 {
      var s := Slice(b, 0, 2);
      assert |s| == 2 || |s| == 0;
      assert Pow256(0) == 1;
    }
  }

  /** An `i32` reads back as stored. */
  lemma I32Layout(x: int)
    requires -0x8000_0000 <= x < 0x8000_0000
    ensures Infallible(I32)
    ensures I32.decode(ToSignedLE(x, 4)) == Ok(x)
  {
    assert Pow256(4) == 0x1_0000_0000;
    SignedOfRoundTrip(x, 4);
  }

  /** An `i8` reads back as stored. */
  lemma I8Layout(x: int)
    requires -128 <= x < 128
    ensures Infallible(I8)
    ensures I8.decode(ToSignedLE(x, 1)) == Ok(x)
  {
    assert Pow256(1) == 256;
    SignedOfRoundTrip(x, 1);
  }

  /** A `u32` reads back as stored. */
  lemma U32Layout(x: nat)
    requires x < 0x1_0000_0000
    ensures Infallible(U32)
    ensures U32.decode(ToLE(x, 4)) == Ok(x)
  {
    assert Pow256(4) == 0x1_0000_0000;
    UnsignedRoundTrip(x, 4);
  }

  /** A stored pointer reads back as the address it holds. */
  lemma PointerLayout<U>(address: nat)
    requires address < 0x1_0000_0000_0000_0000
    ensures Infallible(Pointer<U>())
    ensures Pointer<U>().decode(ToLE(address, 8)) == Ok(RemotePtr(address))
  {
    assert Pow256(8) == 0x1_0000_0000_0000_0000;
    UnsignedRoundTrip(address, 8);
  }

  /** A `CPoint` reads x from its first four bytes and y from the next four. */
  lemma PointLayout(x: int, y: int)
    requires -0x8000_0000 <= x < 0x8000_0000 && -0x8000_0000 <= y < 0x8000_0000
    ensures Infallible(Point)
    ensures Point.decode(ToSignedLE(x, 4) + ToSignedLE(y, 4)) == Ok(CPoint(x, y))
  {
    assert Pow256(4) == 0x1_0000_0000;
    var b := ToSignedLE(x, 4) + ToSignedLE(y, 4);
    assert Slice(b, 0, 4) == ToSignedLE(x, 4);
    assert Slice(b, 4, 4) == ToSignedLE(y, 4);
    SignedRoundTrip(x, 4);
    SignedRoundTrip(y, 4);
  }

  /** `u8` and `[u8; n]` are the bytes as stored. */
  lemma ByteLayouts(x: byte, bs: seq<byte>)
    ensures Infallible(U8) && Infallible(ByteArray(|bs|))
    ensures U8.decode([x]) == Ok(x)
    ensures ByteArray(|bs|).decode(bs) == Ok(bs)
  {
    assert Pow256(1) == 256;
    UnsignedRoundTrip(x, 1);
    assert ToLE(x, 1) == [x];
  }
}
