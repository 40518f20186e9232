/** The memory channel (`ProcessMemory`): "read `length` bytes at an absolute foreign
    address", all or nothing, with two implementations. `Live` is the target process
    read through `process_vm_readv` (src/process.rs); `Snapshot` is the recorded region
    list the test harness replays (`MockProcess`, core/src/tests/mod.rs and
    src/tests/mod.rs). */
module Memory {
  import opened Bytes
  import opened Errors
  import opened Wrappers
  import Radix

  /** A captured region: the inclusive bounds `start..=end` from its file name, and its bytes. */
  datatype MemoryRegion = MemoryRegion(start: nat, end: nat, mem: seq<byte>)

  /** The two implementations. `image` is the target's address space at the instant of
      the read (the readable addresses and their bytes); `alive` is false once it has exited. */
  datatype Backend =
    | Live(alive: bool, image: map<int, byte>)
    | Snapshot(regions: seq<MemoryRegion>)

  /** One more than `usize::MAX`. */
  const UsizeModulus: nat := 0x1_0000_0000_0000_0000

  // ----- the live channel -----

  ghost predicate Mapped(image: map<int, byte>, address: int, length: nat)
  {
    forall i :: address <= i < address + length ==> i in image
  }

  /** How many bytes from `address` on are readable before the first unmapped one. */
  function MappedPrefix(image: map<int, byte>, address: int, length: nat): (k: nat)
    ensures k <= length
    ensures forall i :: address <= i < address + k ==> i in image
    ensures k < length ==> address + k !in image
    decreases length
  {
    if length == 0 || address !in image then 0 else 1 + MappedPrefix(image, address + 1, length - 1)
  }

  /** `process_vm_readv` with one source and one destination iovec: -1 when the target is
      gone or the first byte faults, otherwise the number of bytes transferred, which is
      short when the range runs into an unmapped address. */
  function ProcessVmReadv(alive: bool, image: map<int, byte>, address: int, length: nat): (n: int)
    ensures -1 <= n <= length
  {
    if !alive then -1
    else
      var k := MappedPrefix(image, address, length);
      if k == 0 && length > 0 then -1 else k
  }

  function ImageBytes(image: map<int, byte>, address: int, length: nat): (b: seq<byte>)
    requires forall i :: address <= i < address + length ==> i in image
    ensures |b| == length
  {
    seq(length, i requires 0 <= i < length => image[address + i])
  }

  /** The live `read_mem`: a transfer of any count other than `length` is an error. */
  function LiveReadMem(alive: bool, image: map<int, byte>, address: int, length: nat): (r: Result<seq<byte>>)
  {
    if ProcessVmReadv(alive, image, address, length) == length
    then Ok(ImageBytes(image, address, length))
    else Err(Io)
  }

  // ----- the recorded-snapshot channel -----

  predicate InRegion(r: MemoryRegion, address: int)
  {
    r.start <= address <= r.end
  }

  /** The first region, in list order, whose inclusive bounds contain `address`. */
  function FindRegion(regions: seq<MemoryRegion>, address: int): (r: Option<nat>)
    ensures r.Some? ==> r.value < |regions| && InRegion(regions[r.value], address)
                        && forall j :: 0 <= j < r.value ==> !InRegion(regions[j], address)
    ensures r.None? ==> forall j :: 0 <= j < |regions| ==> !InRegion(regions[j], address)
  {
    if regions == [] then None
    else if InRegion(regions[0], address) then Some(0)
    else match FindRegion(regions[1..], address)
      case Some(i) => Some(i + 1)
      case None => None
  }

  /** The slice that `from_absolute_address` takes stays inside the region's bytes
      (otherwise the slice expression panics). */
  predicate SliceFits(regions: seq<MemoryRegion>, address: int, length: nat)
  {
    match FindRegion(regions, address)
    case Some(i) => address - regions[i].start + length <= |regions[i].mem|
    case None => true
  }

  /** `MemoryRegion::from_absolute_address`. */
  function FromAbsoluteAddress(regions: seq<MemoryRegion>, address: int, length: nat): (r: Option<seq<byte>>)
    requires SliceFits(regions, address, length)
    ensures r.None? <==> forall j :: 0 <= j < |regions| ==> !InRegion(regions[j], address)
    ensures r.Some? ==> |r.value| == length
    ensures r.Some? ==> exists i :: 0 <= i < |regions| && InRegion(regions[i], address)
                          && (forall j :: 0 <= j < i ==> !InRegion(regions[j], address))
                          && r.value == regions[i].mem[address - regions[i].start..][..length]
  {
    match FindRegion(regions, address)
    case None => None
    case Some(i) =>
      var offset := address - regions[i].start;
      assert regions[i].mem[offset..offset + length] == regions[i].mem[offset..][..length];
      Some(regions[i].mem[offset..offset + length])
  }

  /** The error text `MockProcess::read_mem` gives for an address no region covers. */
  function InvalidAddress(address: int): string
  {
    "Invalid address: 0x" + Radix.LowerHex(address % UsizeModulus)
  }

  /** `MockProcess::read_mem`: no region is a `Memory` error, a slice past the region's
      bytes is a panic, otherwise a copy of exactly `length` bytes. */
  function SnapshotReadMem(regions: seq<MemoryRegion>, address: int, length: nat): (r: Result<seq<byte>>)
  {
    if SliceFits(regions, address, length) then
      match FromAbsoluteAddress(regions, address, length)
      case Some(slice) => Ok(slice)
      case None => Err(Memory(InvalidAddress(address)))
    else Panic(SliceEndOutOfRange)
  }

  // ----- the channel interface -----

  /** The implementation's `read_mem`. */
  function BackendReadMem(b: Backend, address: int, length: nat): (r: Result<seq<byte>>)
    ensures r.Ok? ==> |r.value| == length
  {
    match b
    case Live(alive, image) => LiveReadMem(alive, image, address, length)
    case Snapshot(regions) => SnapshotReadMem(regions, address, length)
  }

  /** A handle on one implementation together with its `read_mem`, as the decoders see
      it: an operation they call but do not look into. */
  datatype Handle = Handle(backend: Backend, read: (int, nat) -> Result<seq<byte>>)

  /** The handle's operation is its implementation's `read_mem`. */
  ghost predicate Bound(h: Handle)
  {
    forall address: int, length: nat {:trigger BackendReadMem(h.backend, address, length)} ::
      h.read(address, length) == BackendReadMem(h.backend, address, length)
  }

  type Channel = h: Handle | Bound(h)
    witness Handle(Snapshot([]), (address: int, length: nat) => BackendReadMem(Snapshot([]), address, length))

  /** The channel to an implementation. */
  function Connect(b: Backend): (ch: Channel)
    ensures ch.backend == b
  {
    Handle(b, (address: int, length: nat) => BackendReadMem(b, address, length))
  }

  /** `ProcessMemory::read_mem`, dispatched to the implementation. */
  function ReadMem(ch: Channel, address: int, length: nat): (r: Result<seq<byte>>)
    ensures r.Ok? ==> |r.value| == length
  {
    assert ch.read(address, length) == BackendReadMem(ch.backend, address, length);
    ch.read(address, length)
  }

  /** A channel read is its implementation's read. */
  lemma Dispatch(ch: Channel, address: int, length: nat)
    ensures ReadMem(ch, address, length) == BackendReadMem(ch.backend, address, length)
  {
  }

  /** The bytes an implementation writes into the destination buffer: the live read
      transfers straight into it (a failed read may leave a partial prefix), the
      snapshot copies only after a successful lookup. */
  function Written(ch: Channel, address: int, length: nat): (w: seq<byte>)
    ensures |w| <= length
  {
    match ch.backend
    case Live(alive, image) =>
      var n := ProcessVmReadv(alive, image, address, length);
      if n <= 0 then [] else ImageBytes(image, address, n)
    case Snapshot(regions) =>
      var r := SnapshotReadMem(regions, address, length);
      if r.Ok? then r.value else []
  }

  /** `read_mem_into_unsafe`: fills the caller's buffer in place and returns the count. */
  method ReadMemIntoUnsafe(ch: Channel, buffer: array<byte>, address: int, length: nat) returns (r: Result<int>)
    requires buffer.Length >= length
    modifies buffer
    ensures r == (var m := ReadMem(ch, address, length); if m.Ok? then Ok(length as int) else m.PropagateFailure())
    ensures buffer[..] == Written(ch, address, length) + old(buffer[..])[|Written(ch, address, length)|..]
  {
    Dispatch(ch, address, length);
    var w := Written(ch, address, length);
    forall i | 0 <= i < |w| {
      buffer[i] := w[i];
    }
    assert buffer[..] == w + old(buffer[..])[|w|..];
    match ch.backend {
      case Live(alive, image) =>
        var n := ProcessVmReadv(alive, image, address, length);
        if n != length {
          r := Err(Io);
        } else {
          r := Ok(n);
        }
      case Snapshot(regions) =>
        var m := SnapshotReadMem(regions, address, length);
        if m.Ok? {
          r := Ok(|m.value|);
        } else {
          r := m.PropagateFailure();
        }
    }
  }

  /** `read_mem_into`. The live implementation rejects a buffer shorter than `length`
      before reading; the snapshot one reads first and then panics in `copy_from_slice`
      unless the buffer is exactly `length` long. */
  method ReadMemInto(ch: Channel, buffer: array<byte>, address: int, length: nat) returns (r: Result<int>)
    modifies buffer
    ensures ch.backend.Live? && buffer.Length < length ==>
              r == Err(InsufficentMemory("Insufficent memory for read_mem", length, buffer.Length))
              && buffer[..] == old(buffer[..])
    ensures ch.backend.Snapshot? && ReadMem(ch, address, length).Ok? && buffer.Length != length ==>
              r.Panic? && buffer[..] == old(buffer[..])
    ensures (ch.backend.Live? && buffer.Length >= length) || (ch.backend.Snapshot? && buffer.Length == length) ==>
              r == (var m := ReadMem(ch, address, length); if m.Ok? then Ok(length as int) else m.PropagateFailure())
    ensures ch.backend.Snapshot? && !ReadMem(ch, address, length).Ok? ==>
              r == ReadMem(ch, address, length).PropagateFailure() && buffer[..] == old(buffer[..])
    ensures r.Ok? ==> r.value == length && buffer[..length] == ReadMem(ch, address, length).value
    ensures ch.backend.Live? && buffer.Length >= length ==>
              buffer[..] == Written(ch, address, length) + old(buffer[..])[|Written(ch, address, length)|..]
  {
    Dispatch(ch, address, length);
    match ch.backend {
      case Live(_, _) =>
        if buffer.Length < length {
          return Err(InsufficentMemory("Insufficent memory for read_mem", length, buffer.Length));
        }
        r := ReadMemIntoUnsafe(ch, buffer, address, length);
      case Snapshot(regions) =>
        var memory := SnapshotReadMem(regions, address, length);
        if !memory.Ok? {
          return memory.PropagateFailure();
        }
        if buffer.Length != |memory.value| {
          return Panic("source slice length does not match destination slice length");
        }
        r := ReadMemIntoUnsafe(ch, buffer, address, length);
    }
    if r.Ok? {
      assert buffer[..length] == Written(ch, address, length);
    }
  }

  /** `read_mem`: a zeroed vector of `length` bytes filled by one channel read. */
  method ReadMemVec(ch: Channel, address: int, length: nat) returns (r: Result<seq<byte>>)
    ensures r == ReadMem(ch, address, length)
  {
    var buffer := new byte[length](_ => 0);
    var n := ReadMemInto(ch, buffer, address, length);
    if n.Ok? {
      r := Ok(buffer[..]);
      assert buffer[..] == buffer[..length];
    } else {
      r := n.PropagateFailure();
    }
  }

  // ----- properties of the two implementations -----

  lemma {:induction false} MappedPrefixFull(image: map<int, byte>, address: int, length: nat)
    ensures MappedPrefix(image, address, length) == length <==> Mapped(image, address, length)
    decreases length
  {
    if length > 0 && address in image {
      MappedPrefixFull(image, address + 1, length - 1);
    }
  }

  /** A live read succeeds exactly when the target is alive and every requested byte is
      mapped, and then yields those bytes; anything else, a short read included, is `Io`. */
  lemma LiveReadAllOrNothing(ch: Channel, address: int, length: nat)
    requires ch.backend.Live?
    ensures var image := ch.backend.image;
            && (ReadMem(ch, address, length).Ok? <==> ch.backend.alive && Mapped(image, address, length))
            && (ReadMem(ch, address, length).Ok? ==>
                  forall i :: 0 <= i < length ==> ReadMem(ch, address, length).value[i] == image[address + i])
            && (!ReadMem(ch, address, length).Ok? ==> ReadMem(ch, address, length) == Err(Io))
  {
    Dispatch(ch, address, length);
    MappedPrefixFull(ch.backend.image, address, length);
  }

  /** A snapshot read succeeds exactly when some region contains the address and the
      first such region holds the whole range; it never fails with anything but the
      address error or the slice panic. */
  lemma SnapshotReadOutcomes(ch: Channel, address: int, length: nat)
    requires ch.backend.Snapshot?
    ensures var regions := ch.backend.regions;
            && (ReadMem(ch, address, length).Ok? <==>
                  FindRegion(regions, address).Some? && SliceFits(regions, address, length))
            && (ReadMem(ch, address, length).Err? <==> FindRegion(regions, address).None?)
            && (ReadMem(ch, address, length).Err? ==>
                  ReadMem(ch, address, length).error == Memory(InvalidAddress(address)))
  {
    Dispatch(ch, address, length);
  }

  /** The address error carries the address: its hexadecimal tail parses back to the
      address (as a `usize`). */
  lemma InvalidAddressNamesAddress(address: int)
    ensures |InvalidAddress(address)| > 19
    ensures Radix.ParseUnsigned(InvalidAddress(address)[19..], 16, UsizeModulus) == Some(address % UsizeModulus)
  {
    Radix.ParseFormat(address % UsizeModulus, 16, UsizeModulus);
    assert InvalidAddress(address)[19..] == Radix.LowerHex(address % UsizeModulus);
  }

  /** After a successful read the bytes written into the buffer are the bytes read. */
  lemma WrittenOnSuccess(ch: Channel, address: int, length: nat)
    ensures ReadMem(ch, address, length).Ok? ==> Written(ch, address, length) == ReadMem(ch, address, length).value
  {
    Dispatch(ch, address, length);
  }

  /** Once the target has exited every live read fails, whatever was mapped. */
  lemma DeadTargetReadsFail(ch: Channel, address: int, length: nat)
    requires ch.backend.Live? && !ch.backend.alive
    ensures ReadMem(ch, address, length) == Err(Io)
  {
    Dispatch(ch, address, length);
  }
}
