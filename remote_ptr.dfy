/** `RemotePtr<T>` (core/src/remote_ptr.rs, and its older copy bound to the live process in
    src/remote_ptr.rs): an address in the target's address space, tagged with the type
    stored there, and the typed reads through a memory channel. */
module RemotePointer {
  import opened Bytes
  import opened Errors
  import opened Wrappers
  import opened Memory

  /** A foreign address. The type parameter only records what is stored there. */
  datatype RemotePtr<T> = RemotePtr(address: int)
  {
    /** `byte_offset`: the address moved by a signed byte count. */
    function ByteOffset(offset: int): RemotePtr<T>
    {
      RemotePtr(address + offset)
    }

    /** `cast`: the same address, viewed as holding a `U`. */
    function Cast<U>(): RemotePtr<U>
    {
      RemotePtr(address)
    }
  }

  /** The derived ordering: by address. */
  predicate Before<T>(p: RemotePtr<T>, q: RemotePtr<T>)
  {
    p.address < q.address
  }

  /** The in-memory layout of a `T`: `size_of::<T>()`, and what a run of that many bytes
      means as a `T` (the reinterpretation done by `assume_init`/`transmute`). */
  datatype Codec<T> = Codec(size: nat, decode: seq<byte> -> Result<T>)

  /** Every run of `size` bytes is some `T` (plain integers and byte arrays). */
  ghost predicate Infallible<T>(c: Codec<T>)
  {
    forall b :: |b| == c.size ==> c.decode(b).Ok?
  }

  /** `RemotePtr::read`: `size_of::<T>()` bytes at the address, taken as a `T`. */
  function Read<T>(ch: Channel, p: RemotePtr<T>, c: Codec<T>): Result<T>
  {
    var bytes :- ReadMem(ch, p.address, c.size);
    c.decode(bytes)
  }

  /** `RemotePtr::read_bytes`: `read_mem` at the pointer's address. */
  function ReadBytes<T>(ch: Channel, p: RemotePtr<T>, length: nat): (r: Result<seq<byte>>)
    ensures r.Ok? ==> |r.value| == length
  {
    ReadMem(ch, p.address, length)
  }

  /** Element `i` of an array of `size`-byte elements. */
  function Element(bytes: seq<byte>, size: nat, i: nat): seq<byte>
  {
    Slice(bytes, i * size, size)
  }

  lemma MulStep(a: nat, n: nat)
    requires n > 0
    ensures a * n == a * (n - 1) + a
  {
  }

  /** `n` consecutive elements reinterpreted one after the other. */
  function DecodeArray<T>(c: Codec<T>, bytes: seq<byte>, n: nat): (r: Result<seq<T>>)
    requires |bytes| == c.size * n
    ensures r.Ok? ==> |r.value| == n
    decreases n
  {
    if n == 0 then Ok([])
    else
      MulStep(c.size, n);
      var x :- c.decode(bytes[..c.size]);
      var rest :- DecodeArray(c, bytes[c.size..], n - 1);
      Ok([x] + rest)
  }

  /** `RemotePtr::read_array`: one channel request of `size_of::<T>() * n` bytes. */
  function ReadArray<T>(ch: Channel, p: RemotePtr<T>, c: Codec<T>, n: nat): Result<seq<T>>
  {
    var bytes :- ReadMem(ch, p.address, c.size * n);
    DecodeArray(c, bytes, n)
  }

  // ----- the buffer-filling implementations -----

  /** `read`: the channel fills an uninitialised `T`-sized buffer in place. */
  method ReadValue<T>(ch: Channel, p: RemotePtr<T>, c: Codec<T>) returns (r: Result<T>)
    ensures r == Read(ch, p, c)
  {
    var output := new byte[c.size];
    var n := ReadMemIntoUnsafe(ch, output, p.address, c.size);
    if !n.Ok? {
      return n.PropagateFailure();
    }
    WrittenOnSuccess(ch, p.address, c.size);
    assert output[..] == ReadMem(ch, p.address, c.size).value;
    r := c.decode(output[..]);
  }

  /** `read_array`: the channel fills an uninitialised buffer of `n` elements in one call. */
  method ReadArrayValues<T>(ch: Channel, p: RemotePtr<T>, c: Codec<T>, n: nat) returns (r: Result<seq<T>>)
    ensures r == ReadArray(ch, p, c, n)
  {
    var buffer := new byte[c.size * n];
    var count := ReadMemIntoUnsafe(ch, buffer, p.address, c.size * n);
    if !count.Ok? {
      return count.PropagateFailure();
    }
    WrittenOnSuccess(ch, p.address, c.size * n);
    assert buffer[..] == ReadMem(ch, p.address, c.size * n).value;
    r := DecodeArray(c, buffer[..], n);
  }

  // ----- properties -----

  /** Offsets compose by adding. */
  lemma ByteOffsetCompose<T>(p: RemotePtr<T>, a: int, b: int)
    ensures p.ByteOffset(a).ByteOffset(b) == p.ByteOffset(a + b)
    ensures p.ByteOffset(0) == p
  {
  }

  /** A cast keeps the address, and casting back gives the original pointer. */
  lemma CastKeepsAddress<T, U>(p: RemotePtr<T>)
    ensures p.Cast<U>().address == p.address
    ensures p.Cast<U>().Cast<T>() == p
    ensures p.ByteOffset(1).Cast<U>() == p.Cast<U>().ByteOffset(1)
  {
  }

  /** Pointers are equal, and ordered, exactly as their addresses are. */
  lemma ComparedByAddress<T>(p: RemotePtr<T>, q: RemotePtr<T>)
    ensures p == q <==> p.address == q.address
    ensures Before(p, q) || p == q || Before(q, p)
    ensures !(Before(p, q) && Before(q, p))
  {
  }

  /** A typed read asks the channel for exactly `size_of::<T>()` bytes at the pointer's
      address: it fails precisely as that request fails, and otherwise decodes its bytes. */
  lemma ReadRequestsSize<T>(ch: Channel, p: RemotePtr<T>, c: Codec<T>)
    ensures !ReadMem(ch, p.address, c.size).Ok? ==>
              Read(ch, p, c) == ReadMem(ch, p.address, c.size).PropagateFailure()
    ensures ReadMem(ch, p.address, c.size).Ok? ==>
              Read(ch, p, c) == c.decode(ReadMem(ch, p.address, c.size).value)
    ensures Infallible(c) ==> (Read(ch, p, c).Ok? <==> ReadMem(ch, p.address, c.size).Ok?)
  {
  }

  lemma ElementShift(bytes: seq<byte>, size: nat, n: nat, i: nat)
    requires |bytes| == size * n && 0 < n && i + 1 < n + 1
    ensures size <= |bytes|
    ensures Element(bytes, size, 0) == bytes[..size]
    ensures Element(bytes, size, i + 1) == Element(bytes[size..], size, i)
  {
    MulStep(size, n);
    assert (i + 1) * size == i * size + size;
  }

  /** Decoding an array succeeds exactly when every element decodes, and element `i` of
      the result is the decoding of bytes `[i * size, (i + 1) * size)`. */
  lemma {:induction false} DecodeArrayElements<T>(c: Codec<T>, bytes: seq<byte>, n: nat)
    requires |bytes| == c.size * n
    ensures DecodeArray(c, bytes, n).Ok? <==>
              forall i :: 0 <= i < n ==> c.decode(Element(bytes, c.size, i)).Ok?
    ensures DecodeArray(c, bytes, n).Ok? ==>
              forall i :: 0 <= i < n ==> c.decode(Element(bytes, c.size, i)) == Ok(DecodeArray(c, bytes, n).value[i])
    decreases n
  {
    if n > 0 {
      MulStep(c.size, n);
      var tail := bytes[c.size..];
      DecodeArrayElements(c, tail, n - 1);
      forall i | 0 <= i < n - 1 ensures Element(bytes, c.size, i + 1) == Element(tail, c.size, i) {
        ElementShift(bytes, c.size, n, i);
      }
      ElementShift(bytes, c.size, n, 0);
      if DecodeArray(c, bytes, n).Ok? {
        var xs := DecodeArray(c, bytes, n).value;
        assert xs[1..] == DecodeArray(c, tail, n - 1).value;
        forall i | 0 <= i < n ensures c.decode(Element(bytes, c.size, i)) == Ok(xs[i]) {
          if i > 0 {
            assert Element(bytes, c.size, i) == Element(tail, c.size, i - 1);
          }
        }
      } else if c.decode(bytes[..c.size]).Ok? {
        var j :| 0 <= j < n - 1 && !c.decode(Element(tail, c.size, j)).Ok?;
        assert !c.decode(Element(bytes, c.size, j + 1)).Ok?;
      }
    }
  }

  /** `read_array(n)` makes one request of `size_of::<T>() * n` bytes and fails exactly
      as that request fails when the elements are plain values. */
  lemma ReadArrayRequest<T>(ch: Channel, p: RemotePtr<T>, c: Codec<T>, n: nat)
    ensures !ReadMem(ch, p.address, c.size * n).Ok? ==>
              ReadArray(ch, p, c, n) == ReadMem(ch, p.address, c.size * n).PropagateFailure()
    ensures Infallible(c) ==> (ReadArray(ch, p, c, n).Ok? <==> ReadMem(ch, p.address, c.size * n).Ok?)
  {
    var m := ReadMem(ch, p.address, c.size * n);
    if m.Ok? && Infallible(c) {
      DecodeArrayElements(c, m.value, n);
      forall i | 0 <= i < n ensures c.decode(Element(m.value, c.size, i)).Ok? {
        ElementSize(m.value, c.size, n, i);
      }
    }
  }

  /** On success `read_array(n)` yields `n` elements, element `i` decoded from its own
      `size_of::<T>()` bytes of the one request. */
  lemma ReadArrayElements<T>(ch: Channel, p: RemotePtr<T>, c: Codec<T>, n: nat)
    requires ReadArray(ch, p, c, n).Ok?
    ensures ReadMem(ch, p.address, c.size * n).Ok?
    ensures |ReadArray(ch, p, c, n).value| == n
    ensures forall i :: 0 <= i < n ==>
              c.decode(Element(ReadMem(ch, p.address, c.size * n).value, c.size, i)) == Ok(ReadArray(ch, p, c, n).value[i])
  {
    DecodeArrayElements(c, ReadMem(ch, p.address, c.size * n).value, n);
  }

  lemma MulMonotone(a: nat, b: nat, k: nat)
    requires a <= b
    ensures a * k <= b * k
  {
    var d := b - a;
    assert b * k == a * k + d * k;
  }

  lemma ElementSize(bytes: seq<byte>, size: nat, n: nat, i: nat)
    requires |bytes| == size * n && i < n
    ensures |Element(bytes, size, i)| == size
  {
    MulMonotone(i + 1, n, size);
    assert (i + 1) * size == i * size + size;
  }

  /** The older pointer reads only from the live process: a typed read there succeeds
      exactly when the process is alive and all `size_of::<T>()` bytes are mapped. */
  lemma LiveRead<T>(ch: Channel, p: RemotePtr<T>, c: Codec<T>)
    requires Infallible(c) && ch.backend.Live?
    ensures Read(ch, p, c).Ok? <==> ch.backend.alive && Mapped(ch.backend.image, p.address, c.size)
    ensures !Read(ch, p, c).Ok? ==> Read(ch, p, c) == Err(Io)
  {
    LiveReadAllOrNothing(ch, p.address, c.size);
  }
}
