# bg-radar remote-memory decoding engine, in Dafny

This project models the part of bg-radar that reads the game's state out of another
process. The rest of the program only displays what this part produces.

- **Memory channel** (`Memory`). The program sees memory through one operation,
  `read_mem(address, length)`. It has two implementations:
  - the live process, read with `process_vm_readv`;
  - a snapshot of memory regions that the test harness replays.

  A read is all or nothing. It yields exactly `length` bytes or an error; a short
  transfer is an error too.
- **Remote pointers** (`RemotePointer`). A pointer is an integer address with
  `byte_offset` and `cast`. Typed reads ask the channel for `size_of::<T>()` bytes, or
  `size_of::<T>() * n` bytes for an array, in one request. The `MaybeUninit` and
  `transmute` step is modelled by explicit little-endian decoders (`Layout`, `Bytes`).
- **Field readers** (`Readers`, with `CStrs` and `Utf8`):
  - reads at a byte offset;
  - the 8-byte resource reference `read_res_ref`;
  - the indirect C string `read_string`;
  - `to_lookup!`, which keeps an unrecognised byte as `Unknown(raw)` instead of failing.
- **Value tables** (`IntEnum`, `EnemyAlly`, `Alignment`, `Gender`, `ObjectType`): the
  `TryFrom<u8>` that `int_enum!` generates, and the object-tag table.
- **Record decoders** (`Records`, `Sprite`, `Legacy`):
  - `CAIObjectType`, `CGameAIBase`, `CDerivedStats`, `CCreatureFileHeader`,
    `CGameEffect` and `CGameSprite` read fixed offsets in source order, and the first
    failing read ends the decode;
  - the guards (an unused slot, a non-sprite object) answer without reading;
  - `Legacy` holds the older decoders of the `src` crate.
- **Traversals** (`Lists`, `Locator`). `read_ptr_list` walks an intrusive list whose
  length is a stored count. The static entity table of 32767 slots of 16 bytes is read
  in one request at the load address plus `0x27780`.
- **Locating the game** (`Process`, `Locator`):
  - the `/proc` pid filter;
  - the executable-name filter;
  - the load address on the fourth line of `maps`;
  - the first-match search with its choice of error.
- **Test harness** (`Snapshots`, `Collect`):
  - the two `load_all` loaders that turn dump files into regions;
  - `from_absolute_address`;
  - the hand-written slot decoding and sprite scan of `read_mem_test`.

Failures use one result type, `Result = Ok | Err(Error) | Panic(reason)`. `Err` is a
propagated `Error` (src/error.rs, plus the core crate's `InvalidString` and
`InvalidEnumValue`). `Panic` is an `unwrap`, an `expect` or an out-of-range slice in
the source. The `?` operator is Dafny's `:-`.

Reads through the channel stay uninterpreted in the decoders: `ReadMem(ch, a, n)` is
applied and never unfolded. `Memory.Dispatch` connects it to the two implementations
when a property needs them.

Three behaviours of the string decoders:

- Inline text: with no NUL in the 8 bytes, core/src/types.rs:91-94 decodes strictly,
  and invalid UTF-8 is `InvalidString` (`Readers.ResRefWithoutNul`).
- Null pointer: core/src/types.rs:107-109 reads through a null string pointer, so the
  outcome is that of the channel read at address 0 (`Readers.StringReads`).
- Invalid indirect text: core/src/types.rs:114 calls `to_str().unwrap()`, so invalid
  UTF-8 before the NUL panics (`Readers.DecodeCString`). Only the older
  src/types.rs:70 replaces lossily (`Legacy.ReadStringLossy`).

## Model

| member | source | states |
|---|---|---|
| Memory.ProcessVmReadv | src/process.rs:84 | The transfer count is -1 for an exited target or a fault at the first byte, and otherwise the length of the mapped prefix (at most `length`). |
| Memory.MappedPrefix | src/process.rs:84 | The count of readable bytes before the first unmapped address: all of them are mapped, and the next one is not. |
| Memory.MappedPrefixFull | src/process.rs:84-91 | The mapped prefix is the whole request exactly when every requested byte is mapped. |
| Memory.LiveReadAllOrNothing | src/process.rs:86-91 | A live read succeeds exactly when the target is alive and every requested byte is mapped, and then yields those bytes. Anything else, a short read included, is `Io`. |
| Memory.DeadTargetReadsFail | src/process.rs:84-88 | Once the target has exited, every live read is `Io`. |
| Memory.ReadMemIntoUnsafe | src/process.rs:65-93 | Returns `length` exactly when the channel read succeeds, and otherwise its failure. The buffer becomes the bytes transferred followed by its old tail. |
| Memory.ReadMemInto | src/process.rs:95-110 | Live: a buffer shorter than `length` gives `InsufficentMemory(length, buffer.len())` with the buffer unchanged; otherwise the outcome is the channel read's. Snapshot: the read comes first; a failed read leaves the buffer unchanged, and a buffer not exactly `length` long panics. On success the count is `length` and the buffer starts with the bytes read; on the live path with a long enough buffer, the buffer is the bytes written followed by its old tail. |
| Memory.ReadMemVec | src/process.rs:112-117 | `read_mem` through a zeroed `length`-byte buffer yields exactly the channel read. |
| Memory.ReadMem | src/process.rs:112-117 | A successful channel read holds exactly `length` bytes. |
| Memory.ImageBytes | src/process.rs:84 | The bytes copied out of the address space number exactly `length`. |
| Memory.Written | src/process.rs:84 | No implementation writes more than `length` bytes into the buffer. |
| Memory.WrittenOnSuccess | core/src/tests/mod.rs:95-107 | After a successful read the bytes written into the buffer are the bytes read. |
| Memory.FindRegion | core/src/tests/mod.rs:55-57 | The region found is the first in list order whose inclusive bounds `start <= address <= end` contain the address. None is found exactly when no region contains it. |
| Memory.FromAbsoluteAddress | core/src/tests/mod.rs:50-62 | None exactly when no region contains the address; otherwise exactly `length` bytes, starting at `address - start` of the first matching region. |
| Memory.SnapshotReadOutcomes | core/src/tests/mod.rs:72-80 | A snapshot read succeeds exactly when a region contains the address and the first such region holds the whole range. It is `Memory(InvalidAddress)` exactly when no region contains the address, and otherwise the slice panic. Also src/tests/mod.rs:82-90. |
| Memory.InvalidAddressNamesAddress | core/src/tests/mod.rs:74 | The "Invalid address: 0x…" message carries the address: its hexadecimal tail parses back to it. |
| Memory.BackendReadMem | core/src/tests/mod.rs:72-80 | Either implementation's successful read yields exactly `length` bytes. |
| Memory.Connect | src/process.rs:64 | The channel to an implementation is bound to that implementation. |
| Memory.Dispatch | src/process.rs:112-117 | A channel read is its implementation's read. |
| RemotePointer.ByteOffsetCompose | core/src/remote_ptr.rs:15-17 | `byte_offset(a).byte_offset(b)` is `byte_offset(a + b)`. The same holds for src/remote_ptr.rs:8-10. |
| RemotePointer.CastKeepsAddress | core/src/remote_ptr.rs:19-21 | `cast` keeps the address, and casting back gives the original pointer (also src/remote_ptr.rs:12-14). |
| RemotePointer.ComparedByAddress | core/src/remote_ptr.rs:8-9 | Two pointers are equal exactly when their addresses are, and ordered as their addresses are. |
| RemotePointer.ReadRequestsSize | core/src/remote_ptr.rs:23-29 | A typed read asks for exactly `size_of::<T>()` bytes at the pointer's address. It fails exactly as that request fails, and otherwise decodes the bytes. |
| RemotePointer.ReadValue | core/src/remote_ptr.rs:23-29 | Filling an uninitialised `T` buffer in place yields the typed read. |
| RemotePointer.ReadBytes | core/src/remote_ptr.rs:31-37 | A successful `read_bytes` yields exactly `len` bytes. |
| RemotePointer.DecodeArray | core/src/remote_ptr.rs:44-53 | A decoded array has `n` elements. |
| RemotePointer.DecodeArrayElements | core/src/remote_ptr.rs:44-53 | Decoding succeeds exactly when every element does. Element `i` is decoded from bytes `[i*size, (i+1)*size)`. |
| RemotePointer.ReadArrayRequest | core/src/remote_ptr.rs:39-55 | `read_array(n)` makes one request of `size_of::<T>() * n` bytes. For plain-value elements it fails exactly as that request fails. |
| RemotePointer.ReadArrayElements | core/src/remote_ptr.rs:39-55 | On success `read_array(n)` yields `n` elements. Element `i` is decoded from its own `size_of::<T>()` bytes of the one request. |
| RemotePointer.ReadArrayValues | core/src/remote_ptr.rs:39-55 | Filling an uninitialised buffer of `n` elements by one channel call yields the array read. |
| RemotePointer.ElementSize | core/src/remote_ptr.rs:44-53 | Element `i` of an `n`-element array is exactly `size` bytes of the `size * n` requested. |
| RemotePointer.LiveRead | src/remote_ptr.rs:16-22 | The older pointer reads only the live process: a typed read there succeeds exactly when the target is alive and all `size_of::<T>()` bytes are mapped. |
| Bytes.FromLEToLE | core/src/remote_ptr.rs:26-28 | Little-endian decoding inverts encoding on `n` bytes. |
| Bytes.ToLEFromLE | core/src/remote_ptr.rs:26-28 | Encoding a decoded `n`-byte string gives the string back. |
| Bytes.SignedRoundTrip | core/src/remote_ptr.rs:26-28 | The two's-complement decoding inverts the encoding for every value in range. |
| Bytes.FromLE | core/src/remote_ptr.rs:26-28 | An unsigned little-endian value is below `256^n`. |
| Bytes.Signed | core/src/remote_ptr.rs:26-28 | A two's-complement value of `n` bytes lies in `[-2^(8n-1), 2^(8n-1))`. |
| Layout.I16Layout | core/src/types.rs:271-317 | An `i16` field holds -32768..=32767, and every such value reads back as stored. |
| Layout.I32Layout | core/src/types.rs:202-223 | An `i32` field reads back as stored. |
| Layout.I8Layout | core/src/types.rs:352-372 | An `i8` field reads back as stored. |
| Layout.U32Layout | core/src/types.rs:382 | A `u32` field reads back as stored. |
| Layout.PointerLayout | core/src/types.rs:380 | A stored pointer reads back as the address it holds. |
| Layout.PointLayout | core/src/types.rs:40-45 | A `CPoint` reads `x` from its first four bytes and `y` from the next four. |
| Layout.ByteLayouts | core/src/types.rs:202-223 | `u8` and `[u8; n]` fields are the bytes as stored. |
| Layout.UnsignedRoundTrip | core/src/remote_ptr.rs:26-28 | An unsigned field of `n` bytes reads back the value stored. |
| Layout.SignedOfRoundTrip | core/src/remote_ptr.rs:26-28 | A signed field of `n` bytes reads back the value stored. |
| Readers.ReadAtAddress | core/src/types.rs:47-49 | `read` applies the offset first: it requests exactly `c.size` bytes at `ptr + offset` and fails exactly as that request fails. The older src/types.rs:39-41 is the same. |
| Readers.ReadBytesAtAddress | core/src/types.rs:51-58 | `read_bytes` is `read_mem` at `ptr + offset` with the same length (also src/types.rs:43-45). |
| Readers.ReadBytesAt | core/src/types.rs:51-58 | A successful `read_bytes` holds exactly `len` bytes. |
| Readers.ReadArrayAtAddress | core/src/types.rs:60-67 | `read_array` requests `c.size * len` bytes at `ptr + offset` and decodes them (also src/types.rs:47-54). |
| Readers.ResRefRead | core/src/types.rs:74 | `read_res_ref` reads exactly 8 bytes at `ptr + offset`. A failed read is passed on unchanged. |
| Readers.DecodeResRef | core/src/types.rs:76-97 | Decoding a resource reference never panics. Its only error is `InvalidString` carrying the 8 raw bytes. |
| Readers.ResRefTruncates | core/src/types.rs:76-89 | With the first NUL at `k`, the reference is the lossy text of bytes `[0, k)` whatever follows; it never fails. |
| Readers.ResRefWithoutNul | core/src/types.rs:90-97 | With no NUL, the reference is Ok exactly when the 8 bytes are UTF-8, and then it is their text. Otherwise it is `InvalidString` with the 8 bytes. |
| Readers.ResRefAscii | core/src/types.rs:76-89 | An ASCII name padded with NULs reads back as the name. |
| Readers.StringReads | core/src/types.rs:101-116 | `read_string` reads the stored pointer at `ptr + offset`, then exactly `strlen` bytes there. Either failure is passed on unchanged. |
| Readers.DecodeCString | core/src/types.rs:111-115 | The C string decoder never produces an `Err`: it is None, the text, or the `unwrap` panic. |
| Readers.CStringCases | core/src/types.rs:112-113 | `Ok(None)` exactly when none of the `strlen` bytes is NUL. |
| Readers.CStringCut | core/src/types.rs:112-114 | With the first NUL at `k`, the result is the UTF-8 text of bytes `[0, k)`, or the `unwrap` panic when they are not UTF-8. |
| Readers.LookupRead | core/src/types.rs:159-164 | A lookup fails only when its one-byte read fails. A listed byte is `Found` with that value; any other byte is `Unknown` with the raw byte. |
| Readers.ByteRead | core/src/types.rs:170-178 | A one-byte read at `ptr + offset` is that byte, or the failed read. |
| Readers.OpaqueTable | core/src/types.rs:159-178 | The stand-ins for the General, Race and Class tables obey the `int_enum!` contract on their known values. |
| CStrs.FirstNul | core/src/types.rs:76-79 | The position found holds a NUL and no earlier byte does. None exactly when no byte is NUL. |
| CStrs.FromBytesWithNul | core/src/types.rs:84 | Accepted exactly when the bytes end in their only NUL; the C string is what comes before it. |
| CStrs.FromBytesUntilNul | core/src/types.rs:112 | None exactly when no byte is NUL; otherwise the bytes before the first NUL. |
| CStrs.FirstNulAfter | core/src/types.rs:76-79 | In `p + [0] + t` with no NUL in `p`, the first NUL is at `|p|`. |
| CStrs.WithNulAccepts | core/src/types.rs:83-84 | Cutting just after the first NUL gives bytes that `from_bytes_with_nul` accepts. |
| Utf8.FromUtf8 | core/src/types.rs:91 | A decoded text has no more characters than bytes. |
| Utf8.Lossy | core/src/types.rs:88 | The lossy decoding never fails and yields no more characters than bytes. |
| Utf8.LossyAgreesWhenValid | src/types.rs:70 | On well-formed input the lossy conversion equals the strict one. |
| Utf8.AsciiIdentity | core/src/types.rs:88-91 | ASCII bytes are valid UTF-8 and decode to one character per byte under both conversions. |
| Utf8.DecodeEncode | core/src/types.rs:91 | The validator accepts every encoded string and gives the string back. |
| Utf8.NextEncodeChar | core/src/types.rs:91 | The decoder reads back one encoded character and its width. |
| Utf8.EncodeChar | core/src/types.rs:91 | A character encodes to 1 to 4 bytes. |
| IntEnum.LookupKeepsRaw | core/src/types.rs:159-164 | A lookup never fails. A listed value is found as the variant with that value; any other value is kept raw. |
| IntEnum.DistinctValues | core/src/ids/mod.rs:14-26 | Distinct variants have distinct values, so the table is a bijection between its variants and its listed values. |
| IntEnum.InvalidValueNamesValue | core/src/ids/mod.rs:27 | The error names the table, and its value text parses back as the rejected byte in decimal. |
| IntEnum.IncreasingCount | core/src/ids/mod.rs:14-26 | An increasing value listing has as many distinct values as entries. |
| IntEnum.ToOption | core/src/types.rs:124-129 | `to_option` is Some exactly for `Found`, and then carries the found value. |
| EnemyAlly.Table | core/src/ids/enemy_ally.rs:3-28 | The table obeys the `int_enum!` contract: every variant maps back to itself, a found value round-trips, every unlisted byte is the named error, and nothing panics. There are exactly 22 variants and 22 values. |
| EnemyAlly.Found | core/src/ids/enemy_ally.rs:5-26 | `try_from(x)` is Ok exactly for the listed values, preserves the value, and is the named error otherwise. |
| EnemyAlly.Position | core/src/ids/enemy_ally.rs:5-26 | Every variant is listed. |
| EnemyAlly.Count | core/src/ids/enemy_ally.rs:5-26 | 22 variants and 22 distinct values. |
| EnemyAlly.Landmarks | core/src/ids/enemy_ally.rs:7 | 2 is `Pc` and 255 is `Enemy`, both round-trip, and 8-27, 32-125 and 129-197 are kept raw. |
| Alignment.Table | core/src/ids/alignment.rs:1-20 | The `int_enum!` contract on exactly 16 values. |
| Alignment.Found | core/src/ids/alignment.rs:3-18 | Ok exactly for the listed values, value-preserving, and the named error otherwise. |
| Alignment.Position | core/src/ids/alignment.rs:3-18 | Every variant is listed. |
| Alignment.Count | core/src/ids/alignment.rs:3-18 | 16 variants and 16 distinct values. |
| Alignment.CombinedNibbles | core/src/ids/alignment.rs:4-18 | Each of the nine combined alignments has a high nibble in {0x10, 0x20, 0x30} and a low nibble in {0x01, 0x02, 0x03}, and both nibbles are listed variants. 0x00 is `None`. |
| Alignment.Unrecognised | core/src/ids/alignment.rs:3-18 | 0x04, 0x14 and 0x40 are kept raw. |
| Gender.Table | core/src/ids/gender.rs:1-23 | The `int_enum!` contract on exactly 19 values. |
| Gender.Found | core/src/ids/gender.rs:3-21 | Ok exactly for the listed values, value-preserving, and the named error otherwise. |
| Gender.Position | core/src/ids/gender.rs:3-21 | Every variant is listed. |
| Gender.Count | core/src/ids/gender.rs:3-21 | 19 variants and 19 distinct values. |
| Gender.Landmarks | core/src/ids/gender.rs:21 | 0 reads as `Unknown(0)`, and 66 is `ImprisonedSummoned`. |
| ObjectType.Table | core/src/types.rs:19-38 | The tag table obeys the lookup contract on exactly 15 values. |
| ObjectType.Found | core/src/types.rs:19-38 | A tag is recognised exactly when listed, and keeps its value. |
| ObjectType.Position | core/src/types.rs:19-38 | Every variant is listed. |
| ObjectType.Count | core/src/types.rs:19-38 | 15 variants and 15 distinct values. |
| ObjectType.SpriteTag | core/src/types.rs:30 | A sprite is tag 0x31, and no other tag is a sprite. |
| Wrappers.Unwrap | core/src/types.rs:425 | `unwrap` yields the value when present and panics otherwise. |
| Wrappers.Expect | core/src/tests/mod.rs:42-43 | `expect(msg)` yields the value when present and panics with `msg` otherwise. |
| Wrappers.FirstFailureMeaning | core/src/types.rs:202-223 | A chain of `?` steps succeeds exactly when every step does; otherwise its outcome is the failure of the first step that fails. |
| Wrappers.Status | core/src/types.rs:202-223 | A step's status is Ok, the same error, or the same panic as the step. |
| Records.CAIObjectTypeShortCircuits | core/src/types.rs:154-181 | `CAIObjectType::new` succeeds exactly when every read does: the name through its stored pointer, then the identity bytes at 0x8..0x17. Otherwise it fails as the first failing read does. |
| Records.CAIObjectTypeFields | core/src/types.rs:168-179 | Each field of a decoded classification is the value read at its offset. Each lookup keeps an unknown byte raw. |
| Records.CAIObjectTypeOfChain | core/src/types.rs:154-181 | The record's outcome is the chain of its reads in source order. |
| Records.CAIObjectTypeOfFields | core/src/types.rs:168-179 | Built from successful reads, each field is the value of its read. |
| Records.CAIObjectTypeOfShortCircuits | core/src/types.rs:154-181 | Built from the outcomes of its reads, the record fails as the first failing read. |
| Records.AIBaseGuard | core/src/types.rs:207-209 | An unused slot gives `Ok(None)` on every channel, so no read decides it. |
| Records.AIBaseShortCircuits | core/src/types.rs:211-221 | For a used slot `CGameAIBase::new` succeeds exactly when every read does: 0x8, 0xC, 0x14, 0x28, the classification at +0x30, 0x48, 0x4C. Otherwise it fails as the first failing read does. |
| Records.AIBaseOfShortCircuits | core/src/types.rs:211-221 | The same, from the outcomes of the reads. |
| Records.AIBaseFields | core/src/types.rs:211-221 | Each field of a decoded object is the value read at its offset. The kind is the tag byte at 0x8, and an unlisted tag is an error. |
| Records.TagRead | core/src/types.rs:213 | The tag is the `ObjectType` table's lookup of the one byte at 0x8, or the failed read. |
| Records.CGameAIBaseNew | core/src/types.rs:202-223 | An unused slot gives `Ok(None)`. On a used slot, success always yields an object. |
| Records.CGameAIBaseOf | core/src/types.rs:211-221 | Built from the reads' outcomes, success always yields an object. |
| Records.ReadFields | core/src/types.rs:271-317 | A run of fields read in order yields one value per offset. |
| Records.FieldsShortCircuit | core/src/types.rs:271-317 | The run succeeds exactly when every read does, and otherwise fails as the first failing read. |
| Records.FieldSteps | core/src/types.rs:271-317 | The reads are made at the given offsets, in order. |
| Records.StatList | core/src/types.rs:271-317 | The fields in read order, one per field offset. |
| Records.StatsRoundTrip | core/src/types.rs:271-317 | The record built from the values in read order lists them back: the read order names every field once. |
| Records.DerivedStatsFields | core/src/types.rs:271-317 | Field `k` in read order is the `i16` at its offset. The abilities come from 0x4E (str), 0x52 (int), 0x54 (wis), 0x56 (dex) and 0x58 (con). |
| Records.DerivedStatsShortCircuits | core/src/types.rs:271-317 | `CDerivedStats::new` succeeds exactly when all 34 reads do, and otherwise fails as the first failing read. |
| Records.HeaderReads | core/src/types.rs:328-337 | The header reads hit points at 0x1C and the three levels at 0x22C..0x22E. It succeeds exactly when the four reads do, fails as the first failing one, and holds the values read. |
| Records.HeaderOfShortCircuits | core/src/types.rs:328-337 | From the outcomes of its reads, the header fails as the first failing one. |
| Records.EffectReads | core/src/types.rs:352-372 | The effect reads its nine fields at `ptr + 8 + offset`. It succeeds exactly when they all do, fails as the first failing one, and holds the values read. |
| Records.EffectOfShortCircuits | core/src/types.rs:352-372 | From the outcomes of its reads, the effect fails as the first failing one. |
| Lists.ReadPtrList | core/src/types.rs:374-396 | The loop that pushes each payload and moves to the next node yields the walk of `count` nodes from the head, or its first failure. |
| Lists.ListHeader | core/src/types.rs:379-384 | The head pointer is read at 0x8 and the `u32` count at 0x18; a failure of either is the result. A count of zero is the empty list. |
| Lists.WalkElements | core/src/types.rs:384-395 | A successful list holds exactly `count` elements. Element `i` is the payload decoded from the pointer at offset 0x10 of node `i`, and node `i + 1` is the pointer stored at the start of node `i`. |
| Lists.WalkWithElements | core/src/types.rs:384-395 | A successful walk has exactly `count` elements, and element `i` is what the visit of node `i` yields. |
| Lists.VisitReads | core/src/types.rs:385-389 | One turn succeeds exactly when the next pointer, the payload pointer at `node + 0x10` and the payload all decode. It then yields the next pointer and the payload; otherwise the first of the three failures is the result. |
| Lists.FirstNodeAborts | core/src/types.rs:384-395 | A failure at the first node is the result of the whole list, whatever follows. |
| Lists.WalkPrefix | core/src/types.rs:384 | The walk is bounded by the count alone: a shorter read of the same list is a prefix of a longer one that succeeds. |
| Lists.WalkWithPrefix | core/src/types.rs:384 | The same for any way of visiting a node. |
| Lists.WalkStep | core/src/types.rs:384-395 | A failing visit is the walk's result; otherwise its element comes first and the walk continues from the next node. |
| Lists.Turn | core/src/types.rs:384-395 | One loop turn: each failing read is the whole list's outcome, and otherwise the payload is pushed and the walk goes on from the next node. |
| Lists.ContinueAppend | core/src/types.rs:391 | Pushing onto the list so far commutes with the rest of the walk. |
| Lists.ContinueNothing | core/src/types.rs:379 | With nothing read yet, the outcome is the walk's. |
| Lists.NodeAtStep | core/src/types.rs:393 | Node `i + 1` is the one after node `i`. |
| Lists.WalkWith | core/src/types.rs:384-395 | A successful walk has `count` elements. |
| Lists.Walk | core/src/types.rs:384-395 | A successful walk of the payloads has `count` elements. |
| Sprite.SpriteGuard | core/src/types.rs:419-420 | An unused slot, or one holding another kind of object, gives `Ok(None)` on every channel, so no sprite read happens. |
| Sprite.SpriteShortCircuits | core/src/types.rs:422-445 | For a sprite, `CGameSprite::new` succeeds exactly when every step does, and otherwise fails as the first failing step. The steps are the reference at 0x540, the derived stats at 0x1120, the class check, the name at 0x3910, the area, the two effect lists and the header. |
| Sprite.SpriteOfShortCircuits | core/src/types.rs:422-445 | The same, from the steps' outcomes. |
| Sprite.SpriteFields | core/src/types.rs:422-455 | Each field of a decoded sprite is what its read yields, the base is the one given, and the class is the known class of its classification. |
| Sprite.NameReads | core/src/types.rs:429 | A failed `read_string` is passed on, a name without a NUL in its 64 bytes panics, and otherwise the name is the decoded text. |
| Sprite.UnknownClassPanics | core/src/types.rs:425 | A class the table does not know panics, once the reference and the derived stats have been read. |
| Sprite.MissingNamePanics | core/src/types.rs:429 | A name without a NUL panics, once the reference, the derived stats and the class have been accepted. |
| Sprite.CGameSpriteNew | core/src/types.rs:413-456 | A slot that is unused or not a sprite gives `Ok(None)`. On a sprite slot, success yields a sprite over the given base. |
| Sprite.SpriteOf | core/src/types.rs:422-455 | Built from the steps' outcomes, success yields a sprite over the given base. |
| Legacy.LossyStringReads | src/types.rs:56-72 | The older `read_string` fails only as one of its two reads fails. Once both succeed it is None exactly when no byte is NUL, and otherwise the lossy text before the first NUL. Invalid text is never an error or a panic. |
| Legacy.LossyAgreesWithCore | src/types.rs:67-71 | The two `read_string`s agree wherever the core one returns; where the core one panics on invalid text, the older one returns the replaced text. |
| Legacy.ObjectTypeNameOnly | src/types.rs:89-99 | The older classification keeps the name read at +0 and zeroes every other field. |
| Legacy.LegacyGuard | src/types.rs:125-127 | The raw `id == u16::MAX` test is the core `is_valid` test, and a guarded slot is answered without reading. |
| Legacy.LegacyShortCircuits | src/types.rs:129-139 | For a used slot the older decoder reads the same offsets in the same order and fails as the first failing read. |
| Legacy.LegacyOfShortCircuits | src/types.rs:129-139 | The same, from the reads' outcomes. |
| Legacy.LegacyAgreesWithCore | src/types.rs:120-141 | Where both decoders succeed they agree on every object field and on the classification's name; of the classification the older one keeps only that same name. |
| Legacy.CGameAIBaseNew | src/types.rs:120-141 | An id of `u16::MAX` gives `Ok(None)`. For any other id, success always yields an object. |
| Legacy.CGameAIBaseOf | src/types.rs:129-139 | Built from the reads' outcomes, success always yields an object. |
| Locator.EmptySlot | core/src/lib.rs:36-40 | A slot is valid exactly when its id is not `0xFFFF`, whatever its pointer. |
| Locator.TableSize | core/src/lib.rs:24-28 | `LENGTH` is 524272, which is 32767 slots of 16 bytes. The same constants are in src/main.rs:25-29. |
| Locator.SlotLayout | core/src/lib.rs:30-35 | A slot reads back its stored id from bytes 0..2 and its pointer from bytes 8..16, whatever the padding. |
| Locator.DecodeSlot | core/src/lib.rs:30-35 | A slot decodes to a 16-bit id and a `usize` pointer. |
| Locator.GetStaticEntityList | core/src/lib.rs:43-61 | A process that has exited is `GameProcessClosed` with no read. Otherwise one `read_mem_into_unsafe` of the table fills the array, and on success there are 32767 slots. The same function is in src/main.rs:39-57. |
| Locator.EntityTableRead | core/src/lib.rs:53-58 | The table read is exactly `LENGTH` bytes at `base_address + 0x27780`, and fails only as that read fails. |
| Locator.EntityTableSlots | core/src/lib.rs:53-60 | Slot `i` is decoded from bytes `[16i, 16i + 16)` of the one read. |
| Locator.FindMap | core/src/lib.rs:64-69 | The match found is the first candidate `GameProcess::new` accepts. None exactly when it accepts no candidate. |
| Locator.FindGameProcess | core/src/lib.rs:63-75 | The process found is a valid game process. The search never panics. The same function is in src/main.rs:59-71. |
| Locator.FindOutcomes | core/src/lib.rs:63-75 | `Err(Io)` exactly when `/proc` cannot be listed. Otherwise the first accepted candidate, or `MissingGameProcess` when `first_open` and `GameProcessClosed` when not. |
| Locator.SkipsOthers | core/src/lib.rs:66-69 | A candidate that fails, or that is another program, does not stop the search. |
| Locator.FirstGameWins | core/src/lib.rs:66-69 | A game that appears earlier in `/proc` wins. |
| Process.ReadToString | src/process.rs:38 | Reading a file succeeds exactly when it exists and yields its text; otherwise `Io`. |
| Process.BaseAddress | src/process.rs:46-53 | A base address is a non-zero `usize`. Any failure is `Memory("Could not get base address")`. |
| Process.BaseAddressOfMaps | src/process.rs:46-53 | A `maps` text whose fourth line starts with an address in hex followed by `-` yields that address, provided it is not zero. |
| Process.FourthLine | src/process.rs:47-49 | `lines().nth(3)` of a text with three lines before it is the fourth line. |
| Process.SplitAfterHex | src/process.rs:50 | A line starting with a hex numeral and `-` splits at that `-`. |
| Process.FirstLine | src/process.rs:48 | The first line of a text that starts with `p` starts with `p`. |
| Process.TrimKeeps | src/process.rs:47 | Trailing whitespace is trimmed no further back than a non-whitespace character. |
| Process.TrimmedName | src/process.rs:38 | `comm` ends in a newline, and trimming gives back the bare game name. |
| Process.GameProcessNew | src/process.rs:37-61 | A process found has the given path and pid, a non-zero base address and a game name. The constructor never panics. |
| Process.NotTheGame | src/process.rs:38-42 | A process that is not the game is `Ok(None)` whatever its `maps` holds, or whether it can be read. |
| Process.NewOutcomes | src/process.rs:44-60 | Once the name matched, an unreadable `comm` or `maps` is `Io`. Otherwise the process is found exactly when `maps` yields a base address. |
| Process.WithFile | src/process.rs:38-44 | The file system with one path set or removed differs only at that path. |
| Process.ProcEntry | src/process.rs:128-138 | A candidate's pid is a non-zero `u32`. |
| Process.ProcEntryPid | src/process.rs:128-135 | A directory named for a non-zero pid is a candidate under that pid, and only a directory is. |
| Process.ProcEntryNotZero | src/process.rs:128-129 | A directory named `0` is not a candidate. |
| Process.Procs | src/process.rs:124-142 | No more candidates than entries, each with a non-zero `u32` pid. |
| Process.ProcsAppend | src/process.rs:124-142 | The filter keeps exactly the entries it accepts, in their order. |
| Process.ProcsMembers | src/process.rs:124-142 | Every candidate comes from an accepted entry, and every accepted entry is a candidate. |
| Process.GetProcessProcs | src/process.rs:120-123 | Ok exactly when `/proc` can be listed; otherwise `Io`. |
| Radix.ParseUnsigned | src/process.rs:51 | A parsed value is below the type's bound. The text is neither empty nor a bare `+`, and holds no `-`. |
| Radix.ParseFormat | core/src/tests/mod.rs:42-43 | Formatting and parsing are inverse: the text the formatter produces parses back to the same number. |
| Radix.Format | core/src/tests/mod.rs:74 | The text is non-empty and every character is a digit of the radix. |
| Radix.DigitsValueFormat | core/src/tests/mod.rs:74 | The digits of the formatted text have the number as their value. |
| Radix.DigitValue | src/process.rs:51 | A character is a digit exactly when it is `0-9`, `a-z` or `A-Z` with a value below the radix, and its value is below the radix. |
| Radix.DigitCharValue | core/src/tests/mod.rs:74 | The digit character for `d` has value `d`. |
| Radix.DivMod | core/src/tests/mod.rs:74 | Euclidean division by the radix recombines to the number. |
| Strs.TrimEnd | src/process.rs:38 | The result is a prefix that does not end in whitespace; everything cut off is whitespace. |
| Strs.IndexOf | src/process.rs:50 | The first position of `c`, or None exactly when `c` is absent. |
| Strs.LastIndexOf | core/src/tests/mod.rs:38 | The last position of `c`, or None exactly when `c` is absent. |
| Strs.SplitOnce | src/process.rs:50 | The parts around the first `c`; the left one holds no `c`. None when `c` is absent. |
| Strs.SplitOnceJoin | core/src/tests/mod.rs:39 | Splitting at the first `c` undoes joining with a `c` that the left part lacks. |
| Strs.Lines | src/process.rs:48 | No line holds a newline. |
| Strs.SplitExtension | src/tests/mod.rs:35-37 | The stem and the extension after the last dot. A name with no dot, or whose only dot leads, has no extension. |
| Strs.DumpFileName | src/tests/mod.rs:35-47 | A file named `<stem>.dump` has extension `dump` and gives back its stem. |
| Collect.MapAllOutcome | core/src/tests/mod.rs:27-47 | `map(f).collect()` is Ok exactly when every step is, and then holds each element's value in order. Otherwise it is the failure of the first step that fails. |
| Collect.FilterMapAllIsMapAll | src/tests/mod.rs:45-57 | `filter_map(f).collect()` is `map(f).collect()` with the absent values dropped: the same failure, or the values kept. |
| Collect.FilterMapAllSound | src/tests/mod.rs:45-57 | Every value collected is kept by `f` from some element. |
| Collect.FilterFirst | src/tests/mod.rs:31-57 | Filtering out the elements that `f` drops does not change the outcome. |
| Collect.FilterMapAllAppend | src/tests/mod.rs:45-57 | Over two runs of elements the outcome is the first run's failure, or its values followed by the second run's outcome. |
| Collect.Filter | src/tests/mod.rs:31-43 | The elements kept satisfy the predicate and come from the input; when all satisfy it, the input is kept whole. |
| Collect.MapAll | core/src/tests/mod.rs:27-47 | A successful collection has one value per element. |
| Collect.Kept | src/tests/mod.rs:45-57 | The values kept are ones present in the input, no more of them than entries. |
| Snapshots.RegionOf | core/src/tests/mod.rs:36-45 | An entry gives a region or a panic, never an error. A region holds the entry's bytes and bounds that fit a `usize`. |
| Snapshots.LoadArchiveOutcome | core/src/tests/mod.rs:24-47 | The core loader never reports an error. It keeps every entry in order, or panics at the first entry whose name is not a region. |
| Snapshots.DumpNameSplits | core/src/tests/mod.rs:38-39 | A dump name splits back into its two hex bounds, since hex digits hold no `-`. |
| Snapshots.DumpNameLoads | core/src/tests/mod.rs:38-45 | A region dumped as `<start>-<end>.dump` loads back as itself, by either loader. |
| Snapshots.ArchiveRoundTrip | core/src/tests/mod.rs:24-47 | The archive loader gives back the regions that were dumped, in order. |
| Snapshots.DirectoryRoundTrip | src/tests/mod.rs:26-58 | The directory loader gives back the regions that were dumped, in order, and the filter keeps every dump file. |
| Snapshots.LoadDirectorySound | src/tests/mod.rs:26-58 | Every region the older loader yields is that of a regular `.dump` file of the listing, holding the file's contents, with bounds that fit a `usize`. |
| Snapshots.DumpRegionMeaning | src/tests/mod.rs:46-55 | A dump file contributes exactly when it has a stem holding a `-` and can be read, and is never an error. Its region holds the file's contents and the parsed bounds. |
| Snapshots.ArchiveFiles | core/src/tests/mod.rs:24-47 | One archive entry per region. |
| Snapshots.DumpFiles | src/tests/mod.rs:26-58 | One directory entry per region. |
| Snapshots.TailAddressable | src/tests/mod.rs:51-55 | Bounds that fit a `usize` still fit after the first region is dropped. |
| Snapshots.DecodeSlots | core/src/tests/mod.rs:141-150 | The loop decodes slot `j` as the `u16` of bytes `[16j, 16j+2)` and the pointer of `[16j+8, 16j+16)`, the table layout of `EntityPtr`, yielding `|data|/16` slots. A slot cut short panics on its slice. Also src/tests/mod.rs:151-160. |
| Snapshots.HandSlotIsSlot | core/src/tests/mod.rs:141-150 | The hand decoding of one slot is the `#[repr(C)]` decoding. |
| Snapshots.HandTableIsTable | core/src/tests/mod.rs:135-150 | Slots decoded by hand from the bytes of the table read are the table that `get_static_entity_list` yields. |
| Snapshots.TableBytes | core/src/tests/mod.rs:135-138 | The table is decoded from the `LENGTH` bytes of one read at the table's address. |
| Snapshots.ReadMemTest | core/src/tests/mod.rs:131-168 | `read_mem_test` is the entity table of `get_static_entity_list` scanned for sprites. Also src/tests/mod.rs:141-187. |
| Snapshots.HarnessLawful | core/src/tests/mod.rs:152-165 | The decoders give nothing for an unused slot, and a sprite decoded over a base keeps that base. |
| Snapshots.ScanStep | core/src/tests/mod.rs:152-165 | For one valid slot, a base error is dropped, a base panic ends the scan, and a non-sprite base is skipped. A sprite adds the sprite decoder's value, or ends the scan with its failure. |
| Snapshots.ScanSkipsUnused | core/src/tests/mod.rs:153 | An unused slot does not change the scan. |
| Snapshots.ScanSound | core/src/tests/mod.rs:152-165 | Every entry of the result is a sprite that the sprite decoder produced on a valid slot of the table whose base decodes with the `Sprite` kind. |
| Snapshots.ValidFilterRedundant | core/src/tests/mod.rs:153 | The `filter(is_valid)` stage changes nothing: the base decoder already gives nothing for an unused slot. |

## Left out

- Overlay, tool crate and `main` functions: the OpenGL overlay, X11, the command-line tool and all printing are not part of this model.
- `read_mem_test`'s final `panic!`: it only prints the list it computed, so the model ends at that list.
- System calls and files: the `process_vm_readv` call, the `/proc` listing and `comm`/`maps` are parameters. The address space is a map taken at the instant of the read, the listing a sequence of entries, and the files a map from path to text.
- `GameProcess::exists`: a boolean parameter of `get_static_entity_list`, because it asks the file system at call time.
- Archive and directory I/O: tar/zstd decoding and `read_dir` failures are `expect`/`unwrap` on I/O the model does not see. Archive entries arrive as decoded (name, bytes) pairs, and only a path's final component is modelled.
- Concurrency: the target may change its memory between two reads. The model assumes it does not, which is why reads of one decoder see one address space.
- Raw addresses are unbounded integers. `byte_offset` overflow and `usize` wrap-around are not modelled, except where a value must fit a `usize` (parsed bounds, the base address).
- `MaybeUninit` and `transmute`: a typed read is an explicit little-endian decoder of the bytes read. Uninitialised memory and padding bytes are not modelled beyond "ignored".
- Unchecked object tags. `ObjectType` is read in the source without validating the tag byte. An unlisted tag is undefined behaviour there; the model makes it `InvalidEnumValue`.
- `Class::get_levels`, `ClassLevels`, and the General, Race, Class and Effect tables are not part of this model: their sources are not available. General, Race and Class are opaque sets of known values. Effect is read as a raw 4-byte `u32` that every value passes (`Records.DecodeEffectId`); the 4-byte width is an assumption. The sprite keeps its class instead of the levels.
- Panic messages: a panic carries the `unwrap`/`expect` message or the slice message, not the payload the standard library formats.
- `get_mock_process` and `get_base_address_from_memory_map` are not part of this model. The test's process is a parameter of `ReadMemTest`.
- src/tests/mod.rs imports `CGameSprite` from a module that does not define it. The older test is modelled with the core decoders, which is what its body calls.
- src/padding.rs is unused by any decoder, and src/error.rs's `Display` is formatting only.
- `Lookup::as_option` is the borrowing twin of `to_option`; only `to_option` is modelled.
- Legacy.CGameAIBaseNew: stated over any channel. The older pointer type can read only the live process, and `RemotePointer.LiveRead` states that case separately.
- Utf8.FromUtf8: its own contract states only a length bound. What it accepts is stated by `Utf8.DecodeEncode` and `Utf8.AsciiIdentity`. The error's `valid_up_to` and `error_len` are not modelled; they go only into an error message.
- Utf8.Lossy: its own contract states only a length bound. Its agreement with the strict decoder is stated by `Utf8.LossyAgreesWhenValid`. The exact replacement boundaries for ill-formed input are defined by the body, not proved against the standard library's documentation.
