/** Binding to the game and reading its static entity table (core/src/lib.rs; src/main.rs
    holds the same two functions). */
module Locator {
  import opened Bytes
  import opened Errors
  import opened Wrappers
  import opened Memory
  import opened RemotePointer
  import opened Layout
  import opened Process

  /** The table sits at a fixed offset from the load address and holds `i16::MAX`
      slots of 16 bytes each. */
  const Offset: nat := 0x27780
  const ElementCount: nat := 32767
  const SlotSize: nat := 16
  const Length: nat := ElementCount * SlotSize

  /** The id that marks an unused slot, `u16::MAX`. */
  const EmptyId: nat := 0xFFFF

  /** One slot: a 16-bit id, 6 bytes of padding, and a pointer to the object. */
  datatype EntityPtr = EntityPtr(id: nat, ptr: RemotePtr<CVoid>)

  /** `EntityPtr::is_valid`. */
  predicate IsValid(e: EntityPtr) { e.id != EmptyId }

  /** The `#[repr(C)]` layout of a slot: the id in bytes 0..2, the pointer in bytes 8..16. */
  function DecodeSlot(b: seq<byte>): (r: Result<EntityPtr>)
    ensures r.Ok? && r.value.id < 0x10000 && r.value.ptr.address < UsizeModulus
  {
    Ok(EntityPtr(Unsigned(b, 2), RemotePtr(Unsigned(Slice(b, 8, 8), 8))))
  }

  const Slot: Codec<EntityPtr> := Codec(SlotSize, DecodeSlot)

  /** Where the table is. */
  function TableAddress(g: GameProcess): RemotePtr<EntityPtr>
  {
    RemotePtr(g.baseAddress + Offset)
  }

  /** What `get_static_entity_list` yields: a process that has exited is
      `GameProcessClosed`; otherwise the whole table in one read, reinterpreted as slots. */
  function EntityTable(g: GameProcess, running: bool, ch: Channel): Result<seq<EntityPtr>>
  {
    if !running then Err(GameProcessClosed)
    else ReadArray(ch, TableAddress(g), Slot, ElementCount)
  }

  /** `get_static_entity_list`: one `read_mem_into_unsafe` into an uninitialised array of
      slots, then the array is taken as is. `running` is the `/proc/<pid>` check made
      at the time of the call. */
  method GetStaticEntityList(g: GameProcess, running: bool, ch: Channel) returns (r: Result<seq<EntityPtr>>)
    ensures r == EntityTable(g, running, ch)
    ensures r.Ok? ==> |r.value| == ElementCount
  {
    if !running {
      return Err(GameProcessClosed);
    }
    TableSize();
    var lst := new byte[Length];
    var n := ReadMemIntoUnsafe(ch, lst, TableAddress(g).address, Length);
    if !n.Ok? {
      return n.PropagateFailure();
    }
    WrittenOnSuccess(ch, TableAddress(g).address, Length);
    assert lst[..] == ReadMem(ch, TableAddress(g).address, Length).value;
    r := DecodeArray(Slot, lst[..], ElementCount);
  }

  /** Candidate `c` is the game: `GameProcess::new` gives `Ok(Some(_))`. */
  predicate Accepts(fs: FileSystem, c: (string, nat))
  {
    0 < c.1 < PidBound && Probe(fs, c).Ok? && Probe(fs, c).value.Some?
  }

  /** `GameProcess::new` on one candidate. */
  function Probe(fs: FileSystem, c: (string, nat)): Result<Option<GameProcess>>
    requires 0 < c.1 < PidBound
  {
    GameProcessNew(fs, c.0, c.1)
  }

  /** The first candidate that `GameProcess::new` accepts; failures and other
      processes are passed over. */
  function FindMap(fs: FileSystem, procs: seq<(string, nat)>): (r: Option<GameProcess>)
    ensures r.Some? ==> Valid(r.value)
    ensures r.Some? ==> exists i :: 0 <= i < |procs| && Accepts(fs, procs[i]) && Probe(fs, procs[i]) == Ok(Some(r.value)) &&
                          forall j :: 0 <= j < i ==> !Accepts(fs, procs[j])
    ensures r.None? <==> forall i :: 0 <= i < |procs| ==> !Accepts(fs, procs[i])
  {
    if procs == [] then None
    else if Accepts(fs, procs[0]) then Some(Probe(fs, procs[0]).value.value)
    else
      var r := FindMap(fs, procs[1..]);
      assert forall i :: 1 <= i < |procs| ==> procs[1..][i - 1] == procs[i];
      r
  }

  /** `find_game_process`: an unreadable `/proc` is an I/O error; finding no game is
      `MissingGameProcess` on the first probe and `GameProcessClosed` afterwards. */
  function FindGameProcess(fs: FileSystem, firstOpen: bool, listing: Option<seq<DirEntry>>): (r: Result<GameProcess>)
    ensures r.Ok? ==> Valid(r.value)
    ensures !r.Panic?
  {
    var procs :- GetProcessProcs(listing);
    match FindMap(fs, procs)
    case Some(g) => Ok(g)
    case None => Err(if firstOpen then MissingGameProcess else GameProcessClosed)
  }

  // ----- properties -----

  /** The table is `i16::MAX` slots of 16 bytes. */
  lemma TableSize()
    ensures Length == 524272 && Length == ElementCount * Slot.size
    ensures Infallible(Slot)
  {
  }

  /** A table read asks for exactly the table, and fails only as that read fails. */
  lemma EntityTableRead(g: GameProcess, running: bool, ch: Channel)
    ensures !running ==> EntityTable(g, running, ch) == Err(GameProcessClosed)
    ensures running ==> (EntityTable(g, running, ch).Ok? <==> ReadMem(ch, TableAddress(g).address, Length).Ok?)
    ensures running && !ReadMem(ch, TableAddress(g).address, Length).Ok? ==>
              EntityTable(g, running, ch) == ReadMem(ch, TableAddress(g).address, Length).PropagateFailure()
  {
    ReadArrayRequest(ch, TableAddress(g), Slot, ElementCount);
    TableSize();
  }

  /** Slot `i` of the table is decoded from bytes `[16 i, 16 i + 16)` of the read. */
  lemma EntityTableSlots(g: GameProcess, ch: Channel)
    requires EntityTable(g, true, ch).Ok?
    ensures ReadMem(ch, TableAddress(g).address, Length).Ok?
    ensures |EntityTable(g, true, ch).value| == ElementCount
    ensures forall i :: 0 <= i < ElementCount ==>
              DecodeSlot(Element(ReadMem(ch, TableAddress(g).address, Length).value, SlotSize, i)) ==
              Ok(EntityTable(g, true, ch).value[i])
  {
    ReadArrayElements(ch, TableAddress(g), Slot, ElementCount);
    TableSize();
  }

  /** The slot layout round trip: the stored id and pointer come back, whatever the padding. */
  lemma SlotLayout(id: nat, address: nat, padding: seq<byte>)
    requires id < 0x10000 && address < UsizeModulus && |padding| == 6
    ensures DecodeSlot(ToLE(id, 2) + padding + ToLE(address, 8)) == Ok(EntityPtr(id, RemotePtr(address)))
  {
    var b := ToLE(id, 2) + padding + ToLE(address, 8);
    assert Slice(b, 0, 2) == ToLE(id, 2) == Slice(ToLE(id, 2), 0, 2);
    assert Slice(b, 8, 8) == ToLE(address, 8);
    assert Slice(ToLE(address, 8), 0, 8) == ToLE(address, 8);
    UnsignedRoundTrip(id, 2);
    UnsignedRoundTrip(address, 8);
  }

  /** An unused slot is recognised by its id alone. */
  lemma EmptySlot(padding: seq<byte>, address: nat)
    requires |padding| == 6 && address < UsizeModulus
    ensures !IsValid(DecodeSlot([0xFF, 0xFF] + padding + ToLE(address, 8)).value)
  {
    assert ToLE(0xFFFF, 2) == [0xFF, 0xFF];
    SlotLayout(0xFFFF, address, padding);
  }

  /** The search outcomes: `Err(Io)` exactly when `/proc` cannot be listed, the first
      process the constructor accepts otherwise, and the "not found" error chosen by
      `first_open`. */
  lemma FindOutcomes(fs: FileSystem, firstOpen: bool, listing: Option<seq<DirEntry>>)
    ensures listing.None? ==> FindGameProcess(fs, firstOpen, listing) == Err(Io)
    ensures listing.Some? ==>
              var procs := Procs(listing.value);
              var found := FindMap(fs, procs);
              && (FindGameProcess(fs, firstOpen, listing).Ok? <==> found.Some?)
              && (found.Some? ==> FindGameProcess(fs, firstOpen, listing) == Ok(found.value))
              && (found.None? && firstOpen ==> FindGameProcess(fs, firstOpen, listing) == Err(MissingGameProcess))
              && (found.None? && !firstOpen ==> FindGameProcess(fs, firstOpen, listing) == Err(GameProcessClosed))
  {
  }

  /** A candidate whose files cannot be read, or that is another program, does not stop
      the search. */
  lemma {:induction false} SkipsOthers(fs: FileSystem, procs: seq<(string, nat)>)
    requires procs != [] && !Accepts(fs, procs[0])
    ensures FindMap(fs, procs) == FindMap(fs, procs[1..])
  {
  }

  /** The search is ordered: a game that appears earlier in `/proc` wins. */
  lemma {:induction false} FirstGameWins(fs: FileSystem, a: seq<(string, nat)>, b: seq<(string, nat)>)
    ensures FindMap(fs, a).Some? ==> FindMap(fs, a + b) == FindMap(fs, a)
    ensures FindMap(fs, a).None? ==> FindMap(fs, a + b) == FindMap(fs, b)
    decreases |a|
  {
    var ab := a + b;
    if a == [] {
      assert ab == b;
    } else {
      assert ab[0] == a[0];
      assert ab[1..] == a[1..] + b;
      if !Accepts(fs, a[0]) {
        FirstGameWins(fs, a[1..], b);
      }
    }
  }
}
