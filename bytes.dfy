/** Bytes of the target's address space and the native-endian scalar encodings the
    decoders read them as. The target is an x86-64 process, so "native endian" is
    little endian and a pointer is 8 bytes wide. */
module Bytes {

  type byte = b: int | 0 <= b < 256

  /** 256^n: the number of distinct values an n-byte field can hold. */
  function Pow256(n: nat): (r: nat)
    ensures r >= 1
  {
    if n == 0 then 1 else 256 * Pow256(n - 1)
  }

  /** Unsigned little-endian value of a byte string (u8, u16, u32, usize read natively). */
  function FromLE(b: seq<byte>): (r: nat)
    ensures r < Pow256(|b|)
  {
    if b == [] then 0 else b[0] + 256 * FromLE(b[1..])
  }

  /** The n-byte little-endian encoding of x. */
  function ToLE(x: nat, n: nat): (b: seq<byte>)
    requires x < Pow256(n)
    ensures |b| == n
  {
    if n == 0 then [] else [x % 256] + ToLE(x / 256, n - 1)
  }

  lemma {:induction false} FromLEToLE(x: nat, n: nat)
    requires x < Pow256(n)
    ensures FromLE(ToLE(x, n)) == x
  {
    if n > 0 {
      FromLEToLE(x / 256, n - 1);
      assert ToLE(x, n)[1..] == ToLE(x / 256, n - 1);
    }
  }

  lemma {:induction false} ToLEFromLE(b: seq<byte>)
    ensures ToLE(FromLE(b), |b|) == b
  {
    if b != [] {
      ToLEFromLE(b[1..]);
      assert FromLE(b) % 256 == b[0];
      assert FromLE(b) / 256 == FromLE(b[1..]);
    }
  }

  /** Two's-complement value of a byte string (i8, i16, i32 read natively). */
  function Signed(b: seq<byte>): (r: int)
    ensures 0 <= Pow256(|b|) + 2 * r && 2 * r < Pow256(|b|)
  {
    var u := FromLE(b);
    if 2 * u >= Pow256(|b|) then u - Pow256(|b|) else u
  }

  /** The two's-complement n-byte encoding of x. */
  function ToSignedLE(x: int, n: nat): (b: seq<byte>)
    requires 0 <= Pow256(n) + 2 * x && 2 * x < Pow256(n)
    ensures |b| == n
  {
    ToLE(if x < 0 then x + Pow256(n) else x, n)
  }

  lemma SignedRoundTrip(x: int, n: nat)
    requires 0 <= Pow256(n) + 2 * x && 2 * x < Pow256(n)
    ensures Signed(ToSignedLE(x, n)) == x
  {
    FromLEToLE(if x < 0 then x + Pow256(n) else x, n);
  }

  /** A slice that is empty instead of undefined when it would run past the end;
      on the exact-width buffers the channel returns it is the plain slice. */
  function Slice(b: seq<byte>, from: nat, len: nat): (s: seq<byte>)
    ensures from + len <= |b| ==> s == b[from..from + len]
    ensures from + len > |b| ==> s == []
  {
    if from + len <= |b| then b[from..from + len] else []
  }
}
