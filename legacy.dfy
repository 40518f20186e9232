/** The older decoders of src/types.rs: the lossy `read_string`, a classification that
    keeps only the name, and `CGameAIBase::new` guarded by the raw id. They read through
    the same pointer layer (src/remote_ptr.rs) at the same field offsets as the core. */
module Legacy {
  import opened Bytes
  import opened Errors
  import opened Wrappers
  import opened Memory
  import opened RemotePointer
  import opened Layout
  import opened CStrs
  import opened Readers
  import opened Locator
  import Records
  import ObjectType
  import Utf8

  /** `read_string`: the pointer at `ptr + offset`, then `strlen` bytes there; `None`
      without a NUL, otherwise the text before it with invalid sequences replaced. */
  function ReadStringLossy(ch: Channel, ptr: RemotePtr<CVoid>, offset: int, strlen: nat): Result<Option<string>>
  {
    var charPtr :- ReadAt(ch, ptr, offset, Pointer<CChar>());
    var bytes :- ReadBytes(ch, charPtr, strlen);
    Ok(match FromBytesUntilNul(bytes)
       case Some(slice) => Some(Utf8.Lossy(slice))
       case None => None)
  }

  /** The older classification: every identity field is a plain integer. */
  datatype CAIObjectType = CAIObjectType(
    name: Option<string>,
    enemyAlly: int,
    general: int,
    race: int,
    charClass: int,
    instance: int,
    specialCase: seq<int>,
    specifics: int,
    gender: int,
    alignment: int)

  /** `CAIObjectType::new`: the name (8 bytes) is read; every other field keeps its
      zero default. */
  function CAIObjectTypeNew(ch: Channel, ptr: RemotePtr<CVoid>): Result<CAIObjectType>
  {
    var name :- ReadStringLossy(ch, ptr, 0x0, 8);
    Ok(CAIObjectType(name, 0, 0, 0, 0, 0, [0, 0, 0, 0, 0], 0, 0, 0))
  }

  datatype CGameObject = CGameObject(
    objectType: ObjectType.ObjectType,
    pos: CPoint,
    posZ: int,
    listType: byte,
    typeAi: CAIObjectType,
    id: int,
    canBeSeen: int)

  datatype CGameAIBase = CGameAIBase(gameObject: CGameObject)

  /** `CGameAIBase::new`: nothing when the id is `u16::MAX`; otherwise the fields in
      order, each `?` ending the decode at the first failure. */
  function CGameAIBaseNew(ch: Channel, entity: EntityPtr): (r: Result<Option<CGameAIBase>>)
    ensures entity.id == 0xFFFF ==> r == Ok(None)
    ensures entity.id != 0xFFFF && r.Ok? ==> r.value.Some?
  {
    if entity.id == 0xFFFF then Ok(None)
    else
      var p := entity.ptr;
      CGameAIBaseOf(
        ReadAt(ch, p, 0x8, Records.Tag),
        ReadAt(ch, p, 0xC, Point),
        ReadAt(ch, p, 0x14, I32),
        ReadAt(ch, p, 0x28, U8),
        CAIObjectTypeNew(ch, p.ByteOffset(0x30)),
        ReadAt(ch, p, 0x48, I32),
        ReadAt(ch, p, 0x4C, I16))
  }

  /** The older builder is kept apart from the core one because its record types are
      its own: its `CGameObject` holds the name-only `CAIObjectType` of this module,
      so neither this builder nor the lemma about its read chain can be shared. */
  function CGameAIBaseOf(objectType: Result<ObjectType.ObjectType>, pos: Result<CPoint>, posZ: Result<int>,
                         listType: Result<byte>, typeAi: Result<CAIObjectType>, id: Result<int>,
                         canBeSeen: Result<int>): (r: Result<Option<CGameAIBase>>)
    ensures r.Ok? ==> r.value.Some?
  {
    var objectType :- objectType;
    var pos :- pos;
    var posZ :- posZ;
    var listType :- listType;
    var typeAi :- typeAi;
    var id :- id;
    var canBeSeen :- canBeSeen;
    Ok(Some(CGameAIBase(CGameObject(objectType, pos, posZ, listType, typeAi, id, canBeSeen))))
  }

  // ----- properties -----

  /** The lossy reader fails only as one of its two reads fails; once both succeed it
      is `None` exactly when no byte is NUL, and otherwise the lossy text before the
      first NUL. Invalid text is never an error or a panic. */
  lemma LossyStringReads(ch: Channel, ptr: RemotePtr<CVoid>, offset: int, strlen: nat)
    ensures var q := ReadAt(ch, ptr, offset, Pointer<CChar>());
            && (!q.Ok? ==> ReadStringLossy(ch, ptr, offset, strlen) == q.PropagateFailure())
            && (q.Ok? ==>
                  var m := ReadMem(ch, q.value.address, strlen);
                  && (!m.Ok? ==> ReadStringLossy(ch, ptr, offset, strlen) == m.PropagateFailure())
                  && (m.Ok? ==>
                        && (ReadStringLossy(ch, ptr, offset, strlen) == Ok(None) <==>
                              forall j :: 0 <= j < strlen ==> m.value[j] != 0)
                        && (FirstNul(m.value).Some? ==>
                              ReadStringLossy(ch, ptr, offset, strlen) ==
                              Ok(Some(Utf8.Lossy(m.value[..FirstNul(m.value).value]))))))
  {
  }

  /** The two `read_string`s agree wherever the core one returns: on valid text the
      lossy replacement changes nothing. Where the core one panics on invalid text, the
      older one still returns the replaced text. */
  lemma LossyAgreesWithCore(ch: Channel, ptr: RemotePtr<CVoid>, offset: int, strlen: nat)
    ensures ReadString(ch, ptr, offset, strlen).Ok? ==>
              ReadStringLossy(ch, ptr, offset, strlen) == ReadString(ch, ptr, offset, strlen)
    ensures !ReadString(ch, ptr, offset, strlen).Ok? && ReadStringLossy(ch, ptr, offset, strlen).Ok? ==>
              ReadString(ch, ptr, offset, strlen) == Panic(UnwrapOnErr) &&
              ReadStringLossy(ch, ptr, offset, strlen).value.Some?
  {
    var q := ReadAt(ch, ptr, offset, Pointer<CChar>());
    if q.Ok? {
      var m := ReadBytes(ch, q.value, strlen);
      if m.Ok? {
        match FromBytesUntilNul(m.value)
        case Some(slice) =>
          if Utf8.FromUtf8(slice).Some? {
            Utf8.LossyAgreesWhenValid(slice);
          }
        case None =>
      }
    }
  }

  /** The classification keeps the name read at +0 and zeroes everything else. */
  lemma ObjectTypeNameOnly(ch: Channel, ptr: RemotePtr<CVoid>)
    ensures CAIObjectTypeNew(ch, ptr).Ok? <==> ReadStringLossy(ch, ptr, 0x0, 8).Ok?
    ensures CAIObjectTypeNew(ch, ptr).Ok? ==>
              var t := CAIObjectTypeNew(ch, ptr).value;
              && Ok(t.name) == ReadStringLossy(ch, ptr, 0x0, 8)
              && t.enemyAlly == t.general == t.race == t.charClass == t.instance == 0
              && t.specifics == t.gender == t.alignment == 0
              && |t.specialCase| == 5 && forall k :: 0 <= k < 5 ==> t.specialCase[k] == 0
  {
  }

  /** The raw-id guard is the core's `is_valid` test, and a guarded slot is answered
      without looking at memory. */
  lemma LegacyGuard(ch1: Channel, ch2: Channel, entity: EntityPtr)
    ensures entity.id == 0xFFFF <==> !IsValid(entity)
    ensures !IsValid(entity) ==> CGameAIBaseNew(ch1, entity) == CGameAIBaseNew(ch2, entity) == Ok(None)
  {
  }

  /** The builder fails as the first of its seven inputs fails and otherwise holds
      their values (the same chain as the core builder's, over this module's types). */
  lemma LegacyOfShortCircuits(objectType: Result<ObjectType.ObjectType>, pos: Result<CPoint>, posZ: Result<int>,
                              listType: Result<byte>, typeAi: Result<CAIObjectType>, id: Result<int>,
                              canBeSeen: Result<int>)
    ensures Status(CGameAIBaseOf(objectType, pos, posZ, listType, typeAi, id, canBeSeen)) ==
            FirstFailure([Status(objectType), Status(pos), Status(posZ), Status(listType), Status(typeAi),
                          Status(id), Status(canBeSeen)])
    ensures CGameAIBaseOf(objectType, pos, posZ, listType, typeAi, id, canBeSeen).Ok? ==>
              CGameAIBaseOf(objectType, pos, posZ, listType, typeAi, id, canBeSeen).value ==
              Some(CGameAIBase(CGameObject(objectType.value, pos.value, posZ.value, listType.value, typeAi.value,
                                           id.value, canBeSeen.value)))
  {
    Chain7(Status(objectType), Status(pos), Status(posZ), Status(listType), Status(typeAi), Status(id),
           Status(canBeSeen));
  }

  /** For a used slot the decoder reads the same offsets as the core one, in the same
      order, and fails as the first failing read does. */
  lemma LegacyShortCircuits(ch: Channel, entity: EntityPtr)
    requires entity.id != 0xFFFF
    ensures var p := entity.ptr;
            Status(CGameAIBaseNew(ch, entity)) ==
            FirstFailure([Status(ReadAt(ch, p, 0x8, Records.Tag)),
                          Status(ReadAt(ch, p, 0xC, Point)),
                          Status(ReadAt(ch, p, 0x14, I32)),
                          Status(ReadAt(ch, p, 0x28, U8)),
                          Status(CAIObjectTypeNew(ch, p.ByteOffset(0x30))),
                          Status(ReadAt(ch, p, 0x48, I32)),
                          Status(ReadAt(ch, p, 0x4C, I16))])
  {
    var p := entity.ptr;
    LegacyOfShortCircuits(ReadAt(ch, p, 0x8, Records.Tag), ReadAt(ch, p, 0xC, Point), ReadAt(ch, p, 0x14, I32),
                          ReadAt(ch, p, 0x28, U8), CAIObjectTypeNew(ch, p.ByteOffset(0x30)),
                          ReadAt(ch, p, 0x48, I32), ReadAt(ch, p, 0x4C, I16));
  }

  /** Where both decoders succeed they agree on every object field and on the name
      of the classification; of the classification the older one keeps only that name. */
  lemma LegacyAgreesWithCore(ch: Channel, t: Tables, entity: EntityPtr)
    requires IsValid(entity)
    requires CGameAIBaseNew(ch, entity).Ok? && Records.CGameAIBaseNew(ch, t, entity).Ok?
    ensures var o := CGameAIBaseNew(ch, entity).value.value.gameObject;
            var c := Records.CGameAIBaseNew(ch, t, entity).value.value.gameObject;
            && o.objectType == c.objectType && o.pos == c.pos && o.posZ == c.posZ && o.listType == c.listType
            && o.id == c.id && o.canBeSeen == c.canBeSeen
            && o.typeAi.name == c.typeAi.name
  {
    var p := entity.ptr;
    LegacyOfShortCircuits(ReadAt(ch, p, 0x8, Records.Tag), ReadAt(ch, p, 0xC, Point), ReadAt(ch, p, 0x14, I32),
                          ReadAt(ch, p, 0x28, U8), CAIObjectTypeNew(ch, p.ByteOffset(0x30)),
                          ReadAt(ch, p, 0x48, I32), ReadAt(ch, p, 0x4C, I16));
    Records.AIBaseFields(ch, t, entity);
    Records.CAIObjectTypeFields(ch, t, p.ByteOffset(0x30));
    LossyAgreesWithCore(ch, p.ByteOffset(0x30), 0x0, 8);
  }
}
