/** The test harness's side of the snapshot channel (core/src/tests/mod.rs and
    src/tests/mod.rs): turning dump files into regions, decoding the entity table by
    hand, and the sprite scan of `read_mem_test`. */
module Snapshots {
  import opened Bytes
  import opened Errors
  import opened Wrappers
  import opened Memory
  import opened RemotePointer
  import opened Layout
  import opened Readers
  import opened Locator
  import opened Records
  import opened Sprite
  import opened Collect
  import Strs
  import Radix
  import ObjectType
  import Process

  // ----- loading the regions -----

  /** `Path::file_stem` of a final path component: none for an empty name, `.` or `..`. */
  function Stem(name: string): Option<string>
  {
    if name == "" || name == "." || name == ".." then None else Some(Strs.FileStem(name))
  }

  /** `usize::from_str_radix(s, 16)`. */
  function ParseHex(s: string): Option<nat>
  {
    Radix.ParseUnsigned(s, 16, UsizeModulus)
  }

  const InvalidStart: string := "Invalid region start"
  const InvalidEnd: string := "Invalid region end"

  /** One entry of the compressed archive: its file name and its bytes. */
  datatype ArchiveEntry = ArchiveEntry(name: string, data: seq<byte>)

  /** The core loader's region for one entry: the stem must exist and hold a `-`, and
      both halves must be hexadecimal; each of these is an `unwrap` or `expect`. */
  function RegionOf(e: ArchiveEntry): (r: Result<MemoryRegion>)
    ensures !r.Err?
    ensures r.Ok? ==> r.value.mem == e.data && r.value.start < UsizeModulus && r.value.end < UsizeModulus
  {
    var stem :- Unwrap(Stem(e.name));
    var bounds :- Unwrap(Strs.SplitOnce(stem, '-'));
    var start :- Expect(ParseHex(bounds.0), InvalidStart);
    var end :- Expect(ParseHex(bounds.1), InvalidEnd);
    Ok(MemoryRegion(start, end, e.data))
  }

  /** The core `load_all`: every entry becomes a region, in archive order; the first
      entry that panics ends the load. */
  function LoadArchive(entries: seq<ArchiveEntry>): Result<seq<MemoryRegion>>
  {
    MapAll(RegionOf, entries)
  }

  /** One entry of the dump directory: its name, whether its metadata says it is a
      regular file (`None` when the entry or its metadata cannot be read), and its
      contents (`None` when the file cannot be read). */
  datatype DumpEntry = DumpEntry(name: string, isFile: Option<bool>, contents: Option<seq<byte>>)

  /** The directory loader's filter: a regular file whose extension is exactly `dump`. */
  predicate IsDump(e: DumpEntry)
  {
    e.isFile == Some(true) && Strs.Extension(e.name) == Some("dump")
  }

  /** The older `load_all` on one entry that passed the filter: no stem, no `-` or an
      unreadable file skips it (`?` in `filter_map`); bounds that do not parse panic. */
  function DumpRegion(e: DumpEntry): Result<Option<MemoryRegion>>
  {
    match Stem(e.name)
    case None => Ok(None)
    case Some(stem) =>
      match Strs.SplitOnce(stem, '-')
      case None => Ok(None)
      case Some(bounds) =>
        match e.contents
        case None => Ok(None)
        case Some(data) =>
          var start :- Expect(ParseHex(bounds.0), InvalidStart);
          var end :- Expect(ParseHex(bounds.1), InvalidEnd);
          Ok(Some(MemoryRegion(start, end, data)))
  }

  /** The older `load_all`: the dump files of the directory, in listing order. */
  function LoadDirectory(entries: seq<DumpEntry>): Result<seq<MemoryRegion>>
  {
    FilterMapAll(DumpRegion, Filter(IsDump, entries))
  }

  /** The file name the dumps carry: both bounds in lower-case hexadecimal. */
  function DumpName(start: nat, end: nat): string
  {
    Radix.LowerHex(start) + "-" + Radix.LowerHex(end)
  }

  /** The archive entries and the directory entries a set of regions is dumped to. */
  function ArchiveFiles(regions: seq<MemoryRegion>): (es: seq<ArchiveEntry>)
    ensures |es| == |regions|
  {
    if regions == [] then []
    else [ArchiveEntry(DumpName(regions[0].start, regions[0].end) + ".dump", regions[0].mem)] + ArchiveFiles(regions[1..])
  }

  function DumpFiles(regions: seq<MemoryRegion>): (es: seq<DumpEntry>)
    ensures |es| == |regions|
  {
    if regions == [] then []
    else [DumpEntry(DumpName(regions[0].start, regions[0].end) + ".dump", Some(true), Some(regions[0].mem))] + DumpFiles(regions[1..])
  }

  /** Bounds that fit a `usize`. */
  predicate Addressable(regions: seq<MemoryRegion>)
  {
    forall k :: 0 <= k < |regions| ==> regions[k].start < UsizeModulus && regions[k].end < UsizeModulus
  }

  // ----- properties of the loaders -----

  /** Hexadecimal digits hold no `-`, so a dump name splits back into its two bounds. */
  lemma DumpNameSplits(start: nat, end: nat)
    ensures Strs.SplitOnce(DumpName(start, end), '-') == Some((Radix.LowerHex(start), Radix.LowerHex(end)))
  {
    var h := Radix.LowerHex(start);
    assert forall j :: 0 <= j < |h| ==> Radix.DigitValue(h[j], 16).Some?;
    assert '-' !in h;
    Strs.SplitOnceJoin(h, '-', Radix.LowerHex(end));
  }

  /** A region dumped as `<start>-<end>.dump` in hexadecimal loads back as itself, by
      either loader. */
  lemma DumpNameLoads(start: nat, end: nat, data: seq<byte>)
    requires start < UsizeModulus && end < UsizeModulus
    ensures RegionOf(ArchiveEntry(DumpName(start, end) + ".dump", data)) == Ok(MemoryRegion(start, end, data))
    ensures IsDump(DumpEntry(DumpName(start, end) + ".dump", Some(true), Some(data)))
    ensures DumpRegion(DumpEntry(DumpName(start, end) + ".dump", Some(true), Some(data))) == Ok(Some(MemoryRegion(start, end, data)))
  {
    var stem := DumpName(start, end);
    Strs.DumpFileName(stem);
    assert |stem + ".dump"| > 2;
    assert Stem(stem + ".dump") == Some(stem);
    DumpNameSplits(start, end);
    Radix.ParseFormat(start, 16, UsizeModulus);
    Radix.ParseFormat(end, 16, UsizeModulus);
  }

  /** Both loaders give back the regions that were dumped, in order. */
  lemma {:induction false} ArchiveRoundTrip(regions: seq<MemoryRegion>)
    requires Addressable(regions)
    ensures LoadArchive(ArchiveFiles(regions)) == Ok(regions)
  {
    if regions != [] {
      var r := regions[0];
      DumpNameLoads(r.start, r.end, r.mem);
      var tail := regions[1..];
      TailAddressable(regions);
      ArchiveRoundTrip(tail);
      var es := ArchiveFiles(regions);
      assert es[0] == ArchiveEntry(DumpName(r.start, r.end) + ".dump", r.mem) && es[1..] == ArchiveFiles(tail);
      assert [r] + tail == regions;
    }
  }

  lemma {:induction false} DirectoryRoundTrip(regions: seq<MemoryRegion>)
    requires Addressable(regions)
    ensures Filter(IsDump, DumpFiles(regions)) == DumpFiles(regions)
    ensures LoadDirectory(DumpFiles(regions)) == Ok(regions)
  {
    if regions != [] {
      var r := regions[0];
      DumpNameLoads(r.start, r.end, r.mem);
      var tail := regions[1..];
      TailAddressable(regions);
      DirectoryRoundTrip(tail);
      var ds := DumpFiles(regions);
      assert ds[0] == DumpEntry(DumpName(r.start, r.end) + ".dump", Some(true), Some(r.mem)) && ds[1..] == DumpFiles(tail);
      assert Filter(IsDump, ds) == [ds[0]] + Filter(IsDump, ds[1..]);
      assert [r] + tail == regions;
    }
  }

  lemma TailAddressable(regions: seq<MemoryRegion>)
    requires Addressable(regions) && regions != []
    ensures Addressable(regions[1..])
  {
    assert forall k :: 0 <= k < |regions| - 1 ==> regions[1..][k] == regions[k + 1];
  }

  /** The core loader keeps every entry, in order, or panics at the first entry that
      does not name a region; it never reports an error. */
  lemma LoadArchiveOutcome(entries: seq<ArchiveEntry>)
    ensures !LoadArchive(entries).Err?
    ensures LoadArchive(entries).Ok? <==> forall i :: 0 <= i < |entries| ==> RegionOf(entries[i]).Ok?
    ensures LoadArchive(entries).Ok? ==>
              |LoadArchive(entries).value| == |entries| &&
              forall i :: 0 <= i < |entries| ==> RegionOf(entries[i]) == Ok(LoadArchive(entries).value[i])
    ensures LoadArchive(entries).Panic? ==>
              exists k :: 0 <= k < |entries| && RegionOf(entries[k]).Panic? &&
                          LoadArchive(entries) == Panic(RegionOf(entries[k]).reason) &&
                          forall j :: 0 <= j < k ==> RegionOf(entries[j]).Ok?
  {
    MapAllOutcome(RegionOf, entries);
  }

  /** Every region the older loader yields is that of a dump file of the directory,
      holding the file's contents, with bounds that fit a `usize`. */
  lemma LoadDirectorySound(entries: seq<DumpEntry>)
    requires LoadDirectory(entries).Ok?
    ensures forall r :: r in LoadDirectory(entries).value ==>
              exists e :: e in entries && IsDump(e) && e.contents == Some(r.mem) && DumpRegion(e) == Ok(Some(r))
    ensures Addressable(LoadDirectory(entries).value)
  {
    var ds := Filter(IsDump, entries);
    FilterMapAllSound(DumpRegion, ds);
    var v := LoadDirectory(entries).value;
    forall r | r in v
      ensures exists e :: e in entries && IsDump(e) && e.contents == Some(r.mem) && DumpRegion(e) == Ok(Some(r))
      ensures r.start < UsizeModulus && r.end < UsizeModulus
    {
      var i :| 0 <= i < |ds| && DumpRegion(ds[i]) == Ok(Some(r));
      assert ds[i] in entries && IsDump(ds[i]);
      DumpRegionMeaning(ds[i]);
    }
  }

  /** A dump file contributes exactly when it has a stem holding a `-` and can be read;
      its region then holds the file's contents. */
  lemma DumpRegionMeaning(e: DumpEntry)
    ensures DumpRegion(e) == Ok(None) <==>
              Stem(e.name).None? || Strs.SplitOnce(Stem(e.name).value, '-').None? || e.contents.None?
    ensures !DumpRegion(e).Err?
    ensures DumpRegion(e).Ok? && DumpRegion(e).value.Some? ==>
              var r := DumpRegion(e).value.value;
              && e.contents == Some(r.mem) && r.start < UsizeModulus && r.end < UsizeModulus
              && Strs.SplitOnce(Stem(e.name).value, '-').Some?
              && ParseHex(Strs.SplitOnce(Stem(e.name).value, '-').value.0) == Some(r.start)
              && ParseHex(Strs.SplitOnce(Stem(e.name).value, '-').value.1) == Some(r.end)
  {
  }

  // ----- the hand-decoded entity table -----

  /** Slot `j` of the table as the test decodes it: the `u16` at `16 j` and the `usize`
      at `16 j + 8`. */
  function HandSlot(data: seq<byte>, j: nat): EntityPtr
    requires SlotSize * j + SlotSize <= |data|
  {
    var i := SlotSize * j;
    EntityPtr(FromLE(data[i..i + 2]), RemotePtr(FromLE(data[i + 8..i + 16])))
  }

  /** The loop of `read_mem_test` over the table bytes, 16 at a time: the id from the
      first two bytes and the pointer from the last eight; a slot cut short by the end
      of the bytes panics on its slice. */
  method DecodeSlots(data: seq<byte>) returns (r: Result<seq<EntityPtr>>)
    ensures |data| % SlotSize == 0 ==> r.Ok? && |r.value| == |data| / SlotSize
    ensures r.Ok? ==> forall j :: 0 <= j < |r.value| ==> DecodeSlot(Element(data, SlotSize, j)) == Ok(r.value[j])
    ensures |data| % SlotSize != 0 ==> r == Panic(SliceEndOutOfRange)
  {
    var entities: seq<EntityPtr> := [];
    var i := 0;
    while i < |data|
      invariant i == SlotSize * |entities| && i <= |data|
      invariant forall j :: 0 <= j < |entities| ==> DecodeSlot(Element(data, SlotSize, j)) == Ok(entities[j])
    {
      if i + 2 > |data| {
        return Panic(SliceEndOutOfRange);
      }
      var id := FromLE(data[i..i + 2]);
      if i + 16 > |data| {
        return Panic(SliceEndOutOfRange);
      }
      var ptr := FromLE(data[i + 8..i + 16]);
      HandSlotIsSlot(data, |entities|);
      entities := entities + [EntityPtr(id, RemotePtr(ptr))];
      i := i + 16;
    }
    return Ok(entities);
  }

  /** Slots decoded by hand from the bytes of the table read are the table that
      `get_static_entity_list` yields. */
  lemma HandTableIsTable(g: Process.GameProcess, ch: Channel, entities: seq<EntityPtr>)
    requires ReadMem(ch, TableAddress(g).address, Length).Ok? && |entities| == ElementCount
    requires forall j :: 0 <= j < |entities| ==>
               DecodeSlot(Element(ReadMem(ch, TableAddress(g).address, Length).value, SlotSize, j)) == Ok(entities[j])
    ensures EntityTable(g, true, ch) == Ok(entities)
  {
    var data := ReadMem(ch, TableAddress(g).address, Length).value;
    EntityTableRead(g, true, ch);
    EntityTableSlots(g, ch);
    var table := EntityTable(g, true, ch).value;
    forall j | 0 <= j < ElementCount
      ensures table[j] == entities[j]
    {
      assert DecodeSlot(Element(data, SlotSize, j)) == Ok(table[j]);
    }
    assert table == entities;
  }

  lemma HandSlotIsSlot(data: seq<byte>, j: nat)
    requires SlotSize * j + SlotSize <= |data|
    ensures DecodeSlot(Element(data, SlotSize, j)) == Ok(HandSlot(data, j))
  {
    var i := SlotSize * j;
    var b := Element(data, SlotSize, j);
    assert j * SlotSize == i;
    assert b == data[i..i + 16];
    assert Slice(b, 0, 2) == data[i..i + 2];
    assert Slice(b, 8, 8) == data[i + 8..i + 16];
    assert Slice(Slice(b, 8, 8), 0, 8) == Slice(b, 8, 8);
  }

  // ----- the sprite scan -----

  /** The two decoders the scan calls, as functions of a slot: `CGameAIBase::new` and
      `CGameSprite::new`. */
  datatype Decoders = Decoders(base: EntityPtr -> Result<Option<CGameAIBase>>,
                               sprite: (EntityPtr, CGameAIBase) -> Result<Option<CGameSprite>>)

  /** The decoders of this model over one channel. */
  function Harness(ch: Channel, t: Tables): Decoders
  {
    Decoders(e => CGameAIBaseNew(ch, t, e), (e, b) => CGameSpriteNew(ch, e, b))
  }

  /** What the scan relies on: an unused slot has no base, and the sprite decoder yields
      a sprite over the given base whenever it succeeds on a sprite slot. */
  ghost predicate Lawful(d: Decoders)
  {
    && (forall e :: !IsValid(e) ==> d.base(e) == Ok(None))
    && (forall e, b :: IsSprite(e, b) && d.sprite(e, b).Ok? ==>
          d.sprite(e, b).value.Some? && d.sprite(e, b).value.value.base == b)
  }

  /** What one slot contributes to `read_mem_test`'s list: nothing for a failed or
      non-sprite base decode (the `filter_map` drops errors); the sprite decoder's
      outcome for a sprite; a panic of the base decoder stops the test. */
  function SlotSprite(d: Decoders, e: EntityPtr): Result<Option<Option<CGameSprite>>>
  {
    match d.base(e)
    case Panic(reason) => Panic(reason)
    case Err(_) => Ok(None)
    case Ok(base) =>
      if base.Some? && base.value.gameObject.objectType == ObjectType.Sprite then
        var s :- d.sprite(e, base.value);
        Ok(Some(s))
      else Ok(None)
  }

  /** The `filter_map` step of the scan. */
  function SlotStep(d: Decoders): EntityPtr -> Result<Option<Option<CGameSprite>>>
  {
    e => SlotSprite(d, e)
  }

  /** The scan of `read_mem_test`: the valid slots in table order, collected into a
      result that stops at the first failure. */
  function Scan(d: Decoders, entities: seq<EntityPtr>): Result<seq<Option<CGameSprite>>>
  {
    FilterMapAll(SlotStep(d), Filter(IsValid, entities))
  }

  /** `read_mem_test` without its final debug print: the table read in one call at
      the load address plus the table offset, the slots decoded by hand, then the scan. */
  function TestOutcome(ch: Channel, t: Tables, g: Process.GameProcess): Result<seq<Option<CGameSprite>>>
  {
    var entities :- EntityTable(g, true, ch);
    Scan(Harness(ch, t), entities)
  }

  /** The table is decoded from the bytes of one read at the table's address. */
  lemma TableBytes(g: Process.GameProcess, ch: Channel)
    ensures var m := ReadMem(ch, TableAddress(g).address, Length);
            && (!m.Ok? ==> EntityTable(g, true, ch) == m.PropagateFailure())
            && (m.Ok? ==> |m.value| == SlotSize * ElementCount &&
                          EntityTable(g, true, ch) == DecodeArray(Slot, m.value, ElementCount))
  {
    TableSize();
  }

  /** `read_mem_test`: one `read_mem` of the table, the hand decoding loop, then the scan.
      Its outcome is the entity table of `get_static_entity_list` scanned for sprites. */
  method ReadMemTest(ch: Channel, t: Tables, g: Process.GameProcess) returns (r: Result<seq<Option<CGameSprite>>>)
    ensures r == TestOutcome(ch, t, g)
  {
    TableBytes(g, ch);
    var data := ReadMem(ch, TableAddress(g).address, Length);
    if !data.Ok? {
      return data.PropagateFailure();
    }
    var entities := DecodeSlots(data.value);
    assert |data.value| / SlotSize == ElementCount;
    HandTableIsTable(g, ch, entities.value);
    r := Scan(Harness(ch, t), entities.value);
  }

  // ----- properties of the scan -----

  /** The decoders of this model keep the scan's assumptions. */
  lemma HarnessLawful(ch: Channel, t: Tables)
    ensures Lawful(Harness(ch, t))
  {
    var d := Harness(ch, t);
    forall e | !IsValid(e)
      ensures d.base(e) == Ok(None)
    {
      assert d.base(e) == CGameAIBaseNew(ch, t, e);
    }
    forall e, b | IsSprite(e, b) && d.sprite(e, b).Ok?
      ensures d.sprite(e, b).value.Some? && d.sprite(e, b).value.value.base == b
    {
      assert d.sprite(e, b) == CGameSpriteNew(ch, e, b);
    }
  }

  /** What one valid slot does to the scan: an error of the base decoder is dropped, a
      panic of the base decoder ends the scan, a slot without a sprite base is skipped,
      and a sprite adds the sprite decoder's value or ends the scan with its failure. */
  lemma ScanStep(d: Decoders, e: EntityPtr, rest: seq<EntityPtr>)
    requires IsValid(e)
    ensures var b := d.base(e);
            && (b.Err? ==> Scan(d, [e] + rest) == Scan(d, rest))
            && (b.Panic? ==> Scan(d, [e] + rest) == Panic(b.reason))
            && (b.Ok? && !(b.value.Some? && b.value.value.gameObject.objectType == ObjectType.Sprite) ==>
                  Scan(d, [e] + rest) == Scan(d, rest))
            && (b.Ok? && b.value.Some? && b.value.value.gameObject.objectType == ObjectType.Sprite ==>
                  var s := d.sprite(e, b.value.value);
                  && (!s.Ok? ==> Scan(d, [e] + rest) == s.PropagateFailure())
                  && (s.Ok? && Scan(d, rest).Ok? ==> Scan(d, [e] + rest) == Ok([s.value] + Scan(d, rest).value))
                  && (s.Ok? && !Scan(d, rest).Ok? ==> Scan(d, [e] + rest) == Scan(d, rest)))
  {
    var xs := [e] + rest;
    assert xs[0] == e && xs[1..] == rest;
    var ys := Filter(IsValid, xs);
    assert ys == [e] + Filter(IsValid, rest);
    assert ys[0] == e && ys[1..] == Filter(IsValid, rest);
    if Scan(d, rest).Ok? {
      assert [] + Scan(d, rest).value == Scan(d, rest).value;
    }
  }

  /** An unused slot does not change the scan. */
  lemma ScanSkipsUnused(d: Decoders, e: EntityPtr, rest: seq<EntityPtr>)
    requires !IsValid(e)
    ensures Scan(d, [e] + rest) == Scan(d, rest)
  {
    var xs := [e] + rest;
    assert xs[0] == e && xs[1..] == rest;
    assert Filter(IsValid, xs) == [] + Filter(IsValid, rest) == Filter(IsValid, rest);
  }

  /** A sprite slot's entry: a valid slot whose base decodes with the sprite object type,
      and the sprite decoder's value over that base. */
  predicate SpriteEntry(d: Decoders, e: EntityPtr, y: Option<CGameSprite>)
  {
    && IsValid(e)
    && d.base(e).Ok? && d.base(e).value.Some?
    && d.base(e).value.value.gameObject.objectType == ObjectType.Sprite
    && d.sprite(e, d.base(e).value.value) == Ok(y)
  }

  /** Every entry of the list is a decoded sprite: the sprite decoder's value on a
      valid slot of the table whose base decodes with the sprite object type. */
  lemma ScanSound(d: Decoders, entities: seq<EntityPtr>)
    requires Lawful(d) && Scan(d, entities).Ok?
    ensures forall y :: y in Scan(d, entities).value ==>
              y.Some? && exists e :: e in entities && SpriteEntry(d, e, y)
  {
    var vs := Filter(IsValid, entities);
    FilterMapAllSound(SlotStep(d), vs);
    forall y | y in Scan(d, entities).value
      ensures y.Some? && exists e :: e in entities && SpriteEntry(d, e, y)
    {
      var i :| 0 <= i < |vs| && SlotStep(d)(vs[i]) == Ok(Some(y));
      var e := vs[i];
      assert e in entities && IsValid(e);
      assert SlotSprite(d, e) == Ok(Some(y));
      assert SpriteEntry(d, e, y);
    }
  }

  /** The `filter(is_valid)` stage makes no difference to the outcome: the base decoder
      already yields nothing for an unused slot. */
  lemma ValidFilterRedundant(d: Decoders, entities: seq<EntityPtr>)
    requires Lawful(d)
    ensures Scan(d, entities) == FilterMapAll(SlotStep(d), entities)
  {
    forall e | !IsValid(e)
      ensures SlotStep(d)(e) == Ok(None)
    {
      assert d.base(e) == Ok(None);
    }
    FilterFirst(IsValid, SlotStep(d), entities);
  }
}
