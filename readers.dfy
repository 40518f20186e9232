/** The field readers of the decoders (core/src/types.rs): typed reads at a byte
    offset from an untyped pointer, the two string decoders, and the enum lookup that
    keeps an unrecognised raw byte instead of failing. */
module Readers {
  import opened Bytes
  import opened Errors
  import opened Wrappers
  import opened Memory
  import opened RemotePointer
  import opened Layout
  import opened CStrs
  import Utf8
  import IntEnum

  /** `read`: the value of type `T` at `ptr + offset`. */
  function ReadAt<T>(ch: Channel, ptr: RemotePtr<CVoid>, offset: int, c: Codec<T>): Result<T>
  {
    Read(ch, ptr.ByteOffset(offset).Cast<T>(), c)
  }

  /** `read_bytes`: `len` bytes at `ptr + offset`. */
  function ReadBytesAt(ch: Channel, ptr: RemotePtr<CVoid>, offset: int, len: nat): (r: Result<seq<byte>>)
    ensures r.Ok? ==> |r.value| == len
  {
    ReadBytes(ch, ptr.ByteOffset(offset), len)
  }

  /** `read_array`: `len` values of type `T` at `ptr + offset`. */
  function ReadArrayAt<T>(ch: Channel, ptr: RemotePtr<CVoid>, offset: int, c: Codec<T>, len: nat): Result<seq<T>>
  {
    ReadArray(ch, ptr.ByteOffset(offset).Cast<T>(), c, len)
  }

  // ----- read_res_ref -----

  /** The 8 bytes of a resource reference, as text: cut at the first NUL (the prefix is
      converted lossily), or, with no NUL, all 8 bytes as strict UTF-8. */
  function DecodeResRef(bytes: seq<byte>): (r: Result<string>)
    ensures !r.Panic?
    ensures r.Err? ==> r.error == InvalidString(bytes)
  {
    match FirstNul(bytes)
    case Some(end) =>
      (match FromBytesWithNul(bytes[..end + 1])
       case Some(cs) => Ok(Utf8.Lossy(cs))
       case None => Err(InvalidString(bytes)))
    case None =>
      match Utf8.FromUtf8(bytes)
      case Some(s) => Ok(s)
      case None => Err(InvalidString(bytes))
  }

  const ResRefLength: nat := 8

  /** `read_res_ref`. */
  function ReadResRef(ch: Channel, ptr: RemotePtr<CVoid>, offset: int): Result<string>
  {
    var bytes :- ReadBytesAt(ch, ptr, offset, ResRefLength);
    DecodeResRef(bytes)
  }

  // ----- read_string -----

  const UnwrapOnErr: string := "called `Result::unwrap()` on an `Err` value"

  /** The C string in `strlen` bytes: None without a NUL; the text before the first NUL,
      which must be UTF-8 (`to_str().unwrap()` panics otherwise). */
  function DecodeCString(bytes: seq<byte>): (r: Result<Option<string>>)
    ensures !r.Err?
  {
    match FromBytesUntilNul(bytes)
    case None => Ok(None)
    case Some(slice) =>
      match Utf8.FromUtf8(slice)
      case Some(s) => Ok(Some(s))
      case None => Panic(UnwrapOnErr)
  }

  /** `read_string`: the pointer stored at `ptr + offset`, then `strlen` bytes where it points. */
  function ReadString(ch: Channel, ptr: RemotePtr<CVoid>, offset: int, strlen: nat): Result<Option<string>>
  {
    var charPtr :- ReadAt(ch, ptr, offset, Pointer<CChar>());
    var bytes :- ReadBytes(ch, charPtr, strlen);
    DecodeCString(bytes)
  }

  // ----- lookups -----

  /** `to_lookup!`: one byte at `ptr + offset`, recognised by the table or kept raw. */
  function ReadLookup<K>(ch: Channel, ptr: RemotePtr<CVoid>, offset: int, tryFrom: byte -> Result<K>)
    : Result<IntEnum.Lookup<K, byte>>
  {
    var x :- ReadAt(ch, ptr, offset, U8);
    Ok(IntEnum.ToLookup(tryFrom, x))
  }

  /** A value of one of the enum tables this model does not list (General, Race, Class):
      the value itself, recognised when it is in the table's set of known values. */
  datatype OpaqueId = OpaqueId(value: byte)

  /** The lookup of such a table, obeying the `int_enum!` contract on its known values. */
  function OpaqueTryFrom(name: string, known: set<byte>, x: byte): (r: Result<OpaqueId>)
  {
    if x in known then Ok(OpaqueId(x)) else Err(IntEnum.InvalidValue(name, x))
  }

  /** The known values of the three tables. */
  datatype Tables = Tables(general: set<byte>, race: set<byte>, charClass: set<byte>)

  // ----- properties -----

  /** The readers apply the byte offset first: each reads exactly its size at
      `ptr + offset` and fails exactly as that read fails. */
  lemma ReadAtAddress<T>(ch: Channel, ptr: RemotePtr<CVoid>, offset: int, c: Codec<T>)
    ensures var m := ReadMem(ch, ptr.address + offset, c.size);
            && (!m.Ok? ==> ReadAt(ch, ptr, offset, c) == m.PropagateFailure())
            && (m.Ok? ==> ReadAt(ch, ptr, offset, c) == c.decode(m.value))
  {
  }

  lemma ReadBytesAtAddress(ch: Channel, ptr: RemotePtr<CVoid>, offset: int, len: nat)
    ensures ReadBytesAt(ch, ptr, offset, len) == ReadMem(ch, ptr.address + offset, len)
  {
  }

  lemma ReadArrayAtAddress<T>(ch: Channel, ptr: RemotePtr<CVoid>, offset: int, c: Codec<T>, len: nat)
    ensures var m := ReadMem(ch, ptr.address + offset, c.size * len);
            && (!m.Ok? ==> ReadArrayAt(ch, ptr, offset, c, len) == m.PropagateFailure())
            && (m.Ok? ==> ReadArrayAt(ch, ptr, offset, c, len) == DecodeArray(c, m.value, len))
  {
  }

  /** `read_res_ref` reads exactly 8 bytes at `ptr + offset`; a failed read is passed on unchanged. */
  lemma ResRefRead(ch: Channel, ptr: RemotePtr<CVoid>, offset: int)
    ensures var m := ReadMem(ch, ptr.address + offset, 8);
            && (!m.Ok? ==> ReadResRef(ch, ptr, offset) == m.PropagateFailure())
            && (m.Ok? ==> ReadResRef(ch, ptr, offset) == DecodeResRef(m.value))
  {
  }

  /** With a NUL at `k` and none before, the reference is the lossy text of the bytes
      before it; it never fails, and the bytes after the NUL do not matter. */
  lemma ResRefTruncates(p: seq<byte>, t: seq<byte>)
    requires forall j :: 0 <= j < |p| ==> p[j] != 0
    ensures DecodeResRef(p + [0] + t) == Ok(Utf8.Lossy(p))
  {
    var b := p + [0] + t;
    FirstNulAfter(p, t);
    WithNulAccepts(b);
  }

  /** Without a NUL, the reference is the 8 bytes as strict UTF-8, or `InvalidString`
      carrying those bytes. */
  lemma ResRefWithoutNul(bytes: seq<byte>)
    requires forall j :: 0 <= j < |bytes| ==> bytes[j] != 0
    ensures DecodeResRef(bytes).Ok? <==> Utf8.FromUtf8(bytes).Some?
    ensures DecodeResRef(bytes).Ok? ==> DecodeResRef(bytes).value == Utf8.FromUtf8(bytes).value
    ensures !DecodeResRef(bytes).Ok? ==> DecodeResRef(bytes) == Err(InvalidString(bytes))
  {
  }

  /** An ASCII name padded with NULs reads back as the name. */
  lemma ResRefAscii(name: seq<byte>, padding: seq<byte>)
    requires Utf8.IsAscii(name) && forall j :: 0 <= j < |name| ==> name[j] != 0
    ensures DecodeResRef(name + [0] + padding) == Ok(Utf8.AsciiText(name))
  {
    ResRefTruncates(name, padding);
    Utf8.AsciiIdentity(name);
  }

  /** `read_string` reads the stored pointer at `ptr + offset`, then exactly `strlen`
      bytes where it points; either failure is passed on unchanged. */
  lemma StringReads(ch: Channel, ptr: RemotePtr<CVoid>, offset: int, strlen: nat)
    ensures var q := ReadAt(ch, ptr, offset, Pointer<CChar>());
            && (!q.Ok? ==> ReadString(ch, ptr, offset, strlen) == q.PropagateFailure())
            && (q.Ok? ==>
                  var m := ReadMem(ch, q.value.address, strlen);
                  && (!m.Ok? ==> ReadString(ch, ptr, offset, strlen) == m.PropagateFailure())
                  && (m.Ok? ==> ReadString(ch, ptr, offset, strlen) == DecodeCString(m.value)))
    ensures ReadString(ch, ptr, offset, strlen).Ok? ==> ReadAt(ch, ptr, offset, Pointer<CChar>()).Ok?
  {
  }

  /** The C string decoder: `Ok(None)` exactly when no byte is NUL, and otherwise the
      text before the first NUL. */
  lemma CStringCases(bytes: seq<byte>)
    ensures DecodeCString(bytes) == Ok(None) <==> forall j :: 0 <= j < |bytes| ==> bytes[j] != 0
  {
  }

  lemma CStringCut(p: seq<byte>, t: seq<byte>)
    requires forall j :: 0 <= j < |p| ==> p[j] != 0
    ensures Utf8.FromUtf8(p).Some? ==> DecodeCString(p + [0] + t) == Ok(Some(Utf8.FromUtf8(p).value))
    ensures Utf8.FromUtf8(p).None? ==> DecodeCString(p + [0] + t) == Panic(UnwrapOnErr)
  {
    FirstNulAfter(p, t);
  }

  /** A lookup fails only when its one-byte read fails: a recognised byte is `Found`
      with that value, any other byte is `Unknown` with the raw byte. */
  lemma LookupRead<K(!new)>(ch: Channel, ptr: RemotePtr<CVoid>, offset: int, name: string, variants: seq<K>,
                            value: K -> byte, values: set<byte>, tryFrom: byte -> Result<K>)
    requires IntEnum.Lawful(name, variants, value, values, tryFrom)
    ensures var m := ReadMem(ch, ptr.address + offset, 1);
            && (ReadLookup(ch, ptr, offset, tryFrom).Ok? <==> m.Ok?)
            && (!m.Ok? ==> ReadLookup(ch, ptr, offset, tryFrom) == m.PropagateFailure())
            && (m.Ok? ==>
                  var x := m.value[0];
                  && (x in values ==> ReadLookup(ch, ptr, offset, tryFrom) == Ok(IntEnum.Found(tryFrom(x).value)))
                  && (x in values ==> value(tryFrom(x).value) == x)
                  && (x !in values ==> ReadLookup(ch, ptr, offset, tryFrom) == Ok(IntEnum.Unknown(x))))
  {
    ByteRead(ch, ptr, offset);
  }

  /** A one-byte read at `ptr + offset` is that byte, or the failed read. */
  lemma ByteRead(ch: Channel, ptr: RemotePtr<CVoid>, offset: int)
    ensures var m := ReadMem(ch, ptr.address + offset, 1);
            && (!m.Ok? ==> ReadAt(ch, ptr, offset, U8) == m.PropagateFailure())
            && (m.Ok? ==> ReadAt(ch, ptr, offset, U8) == Ok(m.value[0]))
  {
    var m := ReadMem(ch, ptr.address + offset, 1);
    if m.Ok? {
      assert Slice(m.value, 0, 1) == m.value == [m.value[0]];
      assert Unsigned(m.value, 1) == m.value[0];
    }
  }

  /** The stand-in tables obey the `int_enum!` contract on every value, with the given
      set of known values. */
  lemma OpaqueTable(name: string, known: set<byte>, x: byte)
    ensures OpaqueTryFrom(name, known, x).Ok? <==> x in known
    ensures OpaqueTryFrom(name, known, x).Ok? ==> OpaqueTryFrom(name, known, x).value.value == x
    ensures x !in known ==> OpaqueTryFrom(name, known, x) == Err(IntEnum.InvalidValue(name, x))
  {
  }
}
