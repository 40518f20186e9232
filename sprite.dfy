/** `CGameSprite::new` (core/src/types.rs): the creature record decoded on top of an
    already decoded `CGameAIBase`. */
module Sprite {
  import opened Errors
  import opened Wrappers
  import opened Memory
  import opened RemotePointer
  import opened Layout
  import opened Readers
  import opened Locator
  import opened Records
  import opened Lists
  import ObjectType
  import IntEnum

  /** A creature. The class levels the source derives from the class and the derived
      stats come from a table this model does not list; the record keeps the class
      they are computed from. */
  datatype CGameSprite = CGameSprite(
    base: CGameAIBase,
    resRef: string,
    baseStats: CCreatureFileHeader,
    name: string,
    derivedStats: CDerivedStats,
    currentArea: string,
    charClass: OpaqueId,
    equippedEffects: seq<CGameEffect>,
    timedEffects: seq<CGameEffect>)

  /** Where the sprite-specific fields are, from the object's address. */
  const ResRefOffset: int := 0x540
  const BaseStatsOffset: int := 0x560
  const DerivedStatsOffset: int := 0x1120
  const NameOffset: int := 0x3910
  const NameLength: nat := 64
  const AreaOffset: int := 0x3A20 - 0x18
  const EquippedOffset: int := 0x49B0 - 0x18
  const TimedOffset: int := 0x4A00 - 0x18

  /** The decoder runs only on a used slot whose object is a sprite. */
  predicate IsSprite(entity: EntityPtr, base: CGameAIBase)
  {
    IsValid(entity) && base.gameObject.objectType == ObjectType.Sprite
  }

  /** The class of the classification, which must be one the table knows
      (`to_option().unwrap()`). */
  function SpriteClass(base: CGameAIBase): Result<OpaqueId>
  {
    Unwrap(base.gameObject.typeAi.charClass.ToOption())
  }

  /** The name: `read_string` of 64 bytes, which must hold a NUL (`unwrap`). */
  function ReadName(ch: Channel, p: RemotePtr<CVoid>): Result<string>
  {
    var name :- ReadString(ch, p, NameOffset, NameLength);
    Unwrap(name)
  }

  /** `CGameSprite::new`. */
  function CGameSpriteNew(ch: Channel, entity: EntityPtr, base: CGameAIBase): (r: Result<Option<CGameSprite>>)
    ensures !IsSprite(entity, base) ==> r == Ok(None)
    ensures IsSprite(entity, base) && r.Ok? ==> r.value.Some? && r.value.value.base == base
  {
    if !IsValid(entity) || base.gameObject.objectType != ObjectType.Sprite then Ok(None)
    else
      var p := entity.ptr;
      SpriteOf(base,
               ReadResRef(ch, p, ResRefOffset),
               CDerivedStatsNew(ch, p.ByteOffset(DerivedStatsOffset)),
               ReadName(ch, p),
               ReadResRef(ch, p, AreaOffset),
               PtrList(ch, p.ByteOffset(EquippedOffset), CGameEffectNew),
               PtrList(ch, p.ByteOffset(TimedOffset), CGameEffectNew),
               CCreatureFileHeaderNew(ch, p.ByteOffset(BaseStatsOffset)))
  }

  /** The steps of the decoder in source order, given the outcome of each read: the
      reference, the derived stats, the class check, the name, the area, the two effect
      lists, and the creature-file header last (it is read in the struct expression). */
  function SpriteOf(base: CGameAIBase, resRef: Result<string>, derived: Result<CDerivedStats>,
                    name: Result<string>, area: Result<string>, equipped: Result<seq<CGameEffect>>,
                    timed: Result<seq<CGameEffect>>, header: Result<CCreatureFileHeader>)
    : (r: Result<Option<CGameSprite>>)
    ensures r.Ok? ==> r.value.Some? && r.value.value.base == base
  {
    var resRef :- resRef;
    var derived :- derived;
    var charClass :- SpriteClass(base);
    var name :- name;
    var area :- area;
    var equipped :- equipped;
    var timed :- timed;
    var header :- header;
    Ok(Some(CGameSprite(base, resRef, header, name, derived, area, charClass, equipped, timed)))
  }

  // ----- properties -----

  /** A slot that is unused or holds another kind of object is answered without
      looking at memory: the result is the same for every channel. */
  lemma SpriteGuard(ch1: Channel, ch2: Channel, entity: EntityPtr, base: CGameAIBase)
    requires !IsSprite(entity, base)
    ensures CGameSpriteNew(ch1, entity, base) == CGameSpriteNew(ch2, entity, base) == Ok(None)
  {
  }

  lemma SpriteOfShortCircuits(base: CGameAIBase, resRef: Result<string>, derived: Result<CDerivedStats>,
                              name: Result<string>, area: Result<string>, equipped: Result<seq<CGameEffect>>,
                              timed: Result<seq<CGameEffect>>, header: Result<CCreatureFileHeader>)
    ensures Status(SpriteOf(base, resRef, derived, name, area, equipped, timed, header)) ==
            FirstFailure([Status(resRef), Status(derived), Status(SpriteClass(base)), Status(name), Status(area),
                          Status(equipped), Status(timed), Status(header)])
    ensures SpriteOf(base, resRef, derived, name, area, equipped, timed, header).Ok? ==>
              SpriteOf(base, resRef, derived, name, area, equipped, timed, header).value ==
              Some(CGameSprite(base, resRef.value, header.value, name.value, derived.value, area.value,
                               SpriteClass(base).value, equipped.value, timed.value))
  {
    Chain8(Status(resRef), Status(derived), Status(SpriteClass(base)), Status(name), Status(area),
           Status(equipped), Status(timed), Status(header));
  }

  /** For a sprite the decoder succeeds exactly when every step does, and otherwise
      fails as the first failing step does. */
  lemma SpriteShortCircuits(ch: Channel, entity: EntityPtr, base: CGameAIBase)
    requires IsSprite(entity, base)
    ensures var p := entity.ptr;
            Status(CGameSpriteNew(ch, entity, base)) ==
            FirstFailure([Status(ReadResRef(ch, p, ResRefOffset)),
                          Status(CDerivedStatsNew(ch, p.ByteOffset(DerivedStatsOffset))),
                          Status(SpriteClass(base)),
                          Status(ReadName(ch, p)),
                          Status(ReadResRef(ch, p, AreaOffset)),
                          Status(PtrList(ch, p.ByteOffset(EquippedOffset), CGameEffectNew)),
                          Status(PtrList(ch, p.ByteOffset(TimedOffset), CGameEffectNew)),
                          Status(CCreatureFileHeaderNew(ch, p.ByteOffset(BaseStatsOffset)))])
  {
    var p := entity.ptr;
    SpriteOfShortCircuits(base, ReadResRef(ch, p, ResRefOffset), CDerivedStatsNew(ch, p.ByteOffset(DerivedStatsOffset)),
                          ReadName(ch, p), ReadResRef(ch, p, AreaOffset),
                          PtrList(ch, p.ByteOffset(EquippedOffset), CGameEffectNew),
                          PtrList(ch, p.ByteOffset(TimedOffset), CGameEffectNew),
                          CCreatureFileHeaderNew(ch, p.ByteOffset(BaseStatsOffset)));
  }

  /** Each field of a decoded sprite is what its read yields, the base is the one
      given, and the class is the known class of its classification. */
  lemma SpriteFields(ch: Channel, entity: EntityPtr, base: CGameAIBase)
    requires IsSprite(entity, base) && CGameSpriteNew(ch, entity, base).Ok?
    ensures var p := entity.ptr;
            var s := CGameSpriteNew(ch, entity, base).value.value;
            && s.base == base
            && Ok(s.resRef) == ReadResRef(ch, p, ResRefOffset)
            && Ok(s.derivedStats) == CDerivedStatsNew(ch, p.ByteOffset(DerivedStatsOffset))
            && base.gameObject.typeAi.charClass == IntEnum.Found(s.charClass)
            && ReadString(ch, p, NameOffset, NameLength) == Ok(Some(s.name))
            && Ok(s.currentArea) == ReadResRef(ch, p, AreaOffset)
            && Ok(s.equippedEffects) == PtrList(ch, p.ByteOffset(EquippedOffset), CGameEffectNew)
            && Ok(s.timedEffects) == PtrList(ch, p.ByteOffset(TimedOffset), CGameEffectNew)
            && Ok(s.baseStats) == CCreatureFileHeaderNew(ch, p.ByteOffset(BaseStatsOffset))
  {
    var p := entity.ptr;
    SpriteOfShortCircuits(base, ReadResRef(ch, p, ResRefOffset), CDerivedStatsNew(ch, p.ByteOffset(DerivedStatsOffset)),
                          ReadName(ch, p), ReadResRef(ch, p, AreaOffset),
                          PtrList(ch, p.ByteOffset(EquippedOffset), CGameEffectNew),
                          PtrList(ch, p.ByteOffset(TimedOffset), CGameEffectNew),
                          CCreatureFileHeaderNew(ch, p.ByteOffset(BaseStatsOffset)));
    NameReads(ch, p);
  }

  /** The name step: a failed `read_string` is passed on, a name without a NUL in its
      64 bytes panics, and otherwise the name is the decoded text. */
  lemma NameReads(ch: Channel, p: RemotePtr<CVoid>)
    ensures var s := ReadString(ch, p, NameOffset, NameLength);
            && (!s.Ok? ==> ReadName(ch, p) == s.PropagateFailure())
            && (s == Ok(None) ==> ReadName(ch, p) == Panic(UnwrapOnNone))
            && (s.Ok? && s.value.Some? ==> ReadName(ch, p) == Ok(s.value.value))
            && (ReadName(ch, p).Ok? ==> s == Ok(Some(ReadName(ch, p).value)))
  {
  }

  /** A classification whose class the table does not know stops the decoder with a
      panic, once the reference and the derived stats have been read. */
  lemma UnknownClassPanics(ch: Channel, entity: EntityPtr, base: CGameAIBase)
    requires IsSprite(entity, base) && base.gameObject.typeAi.charClass.Unknown?
    requires ReadResRef(ch, entity.ptr, ResRefOffset).Ok?
    requires CDerivedStatsNew(ch, entity.ptr.ByteOffset(DerivedStatsOffset)).Ok?
    ensures CGameSpriteNew(ch, entity, base) == Panic(UnwrapOnNone)
  {
  }

  /** A name with no NUL in its 64 bytes stops the decoder with a panic, once the
      reference, the derived stats and the class have been accepted. */
  lemma MissingNamePanics(ch: Channel, entity: EntityPtr, base: CGameAIBase)
    requires IsSprite(entity, base) && base.gameObject.typeAi.charClass.Found?
    requires ReadResRef(ch, entity.ptr, ResRefOffset).Ok?
    requires CDerivedStatsNew(ch, entity.ptr.ByteOffset(DerivedStatsOffset)).Ok?
    requires ReadString(ch, entity.ptr, NameOffset, NameLength) == Ok(None)
    ensures CGameSpriteNew(ch, entity, base) == Panic(UnwrapOnNone)
  {
    NameReads(ch, entity.ptr);
  }
}
