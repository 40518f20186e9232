/** The structure decoders of core/src/types.rs: fixed-offset field reads that stop at
    the first failing read. */
module Records {
  import opened Bytes
  import opened Errors
  import opened Wrappers
  import opened Memory
  import opened RemotePointer
  import opened Layout
  import opened Readers
  import opened Locator
  import IntEnum
  import EnemyAlly
  import Alignment
  import Gender
  import ObjectType

  type Lookup<K> = IntEnum.Lookup<K, byte>

  // ----- CAIObjectType -----

  /** The identity classification of a game object. */
  datatype CAIObjectType = CAIObjectType(
    name: Option<string>,
    enemyAlly: Lookup<EnemyAlly.EnemyAlly>,
    general: Lookup<OpaqueId>,
    race: Lookup<OpaqueId>,
    charClass: Lookup<OpaqueId>,
    instance: int,
    specialCase: seq<byte>,
    specifics: byte,
    gender: Lookup<Gender.Gender>,
    alignment: Lookup<Alignment.Alignment>)

  /** The lookups of the three tables this model keeps opaque. */
  function GeneralOf(t: Tables): byte -> Result<OpaqueId> { (x: byte) => OpaqueTryFrom("General", t.general, x) }
  function RaceOf(t: Tables): byte -> Result<OpaqueId> { (x: byte) => OpaqueTryFrom("Race", t.race, x) }
  function ClassOf(t: Tables): byte -> Result<OpaqueId> { (x: byte) => OpaqueTryFrom("Class", t.charClass, x) }

  /** `CAIObjectType::new`: the name through its stored pointer (8 bytes), then the
      identity bytes at 0x8..0x17, each lookup keeping an unknown byte raw. */
  function CAIObjectTypeNew(ch: Channel, t: Tables, ptr: RemotePtr<CVoid>): Result<CAIObjectType>
  {
    CAIObjectTypeOf(
      ReadString(ch, ptr, 0x0, 8),
      ReadLookup(ch, ptr, 0x8, EnemyAlly.TryFrom),
      ReadLookup(ch, ptr, 0x9, GeneralOf(t)),
      ReadLookup(ch, ptr, 0xA, RaceOf(t)),
      ReadLookup(ch, ptr, 0xB, ClassOf(t)),
      ReadAt(ch, ptr, 0xC, I32),
      ReadAt(ch, ptr, 0x10, ByteArray(5)),
      ReadAt(ch, ptr, 0x15, U8),
      ReadLookup(ch, ptr, 0x16, Gender.TryFrom),
      ReadLookup(ch, ptr, 0x17, Alignment.TryFrom))
  }

  /** The record from the outcomes of its reads, taken in the order the source makes
      them: the first failing read is the result. */
  function CAIObjectTypeOf(name: Result<Option<string>>, enemyAlly: Result<Lookup<EnemyAlly.EnemyAlly>>,
                           general: Result<Lookup<OpaqueId>>, race: Result<Lookup<OpaqueId>>,
                           charClass: Result<Lookup<OpaqueId>>, instance: Result<int>,
                           specialCase: Result<seq<byte>>, specifics: Result<byte>,
                           gender: Result<Lookup<Gender.Gender>>, alignment: Result<Lookup<Alignment.Alignment>>)
    : Result<CAIObjectType>
  {
    var name :- name;
    var enemyAlly :- enemyAlly;
    var general :- general;
    var race :- race;
    var charClass :- charClass;
    var instance :- instance;
    var specialCase :- specialCase;
    var specifics :- specifics;
    var gender :- gender;
    var alignment :- alignment;
    Ok(CAIObjectType(name, enemyAlly, general, race, charClass, instance, specialCase, specifics,
                     gender, alignment))
  }

  /** The decoder succeeds exactly when every read does, and otherwise fails as the
      first failing read does. */
  lemma CAIObjectTypeShortCircuits(ch: Channel, t: Tables, ptr: RemotePtr<CVoid>)
    ensures Status(CAIObjectTypeNew(ch, t, ptr)) ==
            FirstFailure([Status(ReadString(ch, ptr, 0x0, 8)),
                          Status(ReadLookup(ch, ptr, 0x8, EnemyAlly.TryFrom)),
                          Status(ReadLookup(ch, ptr, 0x9, GeneralOf(t))),
                          Status(ReadLookup(ch, ptr, 0xA, RaceOf(t))),
                          Status(ReadLookup(ch, ptr, 0xB, ClassOf(t))),
                          Status(ReadAt(ch, ptr, 0xC, I32)),
                          Status(ReadAt(ch, ptr, 0x10, ByteArray(5))),
                          Status(ReadAt(ch, ptr, 0x15, U8)),
                          Status(ReadLookup(ch, ptr, 0x16, Gender.TryFrom)),
                          Status(ReadLookup(ch, ptr, 0x17, Alignment.TryFrom))])
  {
    CAIObjectTypeOfShortCircuits(
      ReadString(ch, ptr, 0x0, 8),
      ReadLookup(ch, ptr, 0x8, EnemyAlly.TryFrom),
      ReadLookup(ch, ptr, 0x9, GeneralOf(t)),
      ReadLookup(ch, ptr, 0xA, RaceOf(t)),
      ReadLookup(ch, ptr, 0xB, ClassOf(t)),
      ReadAt(ch, ptr, 0xC, I32),
      ReadAt(ch, ptr, 0x10, ByteArray(5)),
      ReadAt(ch, ptr, 0x15, U8),
      ReadLookup(ch, ptr, 0x16, Gender.TryFrom),
      ReadLookup(ch, ptr, 0x17, Alignment.TryFrom));
  }

  lemma CAIObjectTypeOfShortCircuits(
    name: Result<Option<string>>, enemyAlly: Result<Lookup<EnemyAlly.EnemyAlly>>,
    general: Result<Lookup<OpaqueId>>, race: Result<Lookup<OpaqueId>>,
    charClass: Result<Lookup<OpaqueId>>, instance: Result<int>,
    specialCase: Result<seq<byte>>, specifics: Result<byte>,
    gender: Result<Lookup<Gender.Gender>>, alignment: Result<Lookup<Alignment.Alignment>>)
    ensures Status(CAIObjectTypeOf(name, enemyAlly, general, race, charClass, instance, specialCase, specifics, gender, alignment)) ==
            FirstFailure([Status(name), Status(enemyAlly), Status(general), Status(race), Status(charClass),
                          Status(instance), Status(specialCase), Status(specifics), Status(gender), Status(alignment)])
  {
    CAIObjectTypeOfChain(name, enemyAlly, general, race, charClass, instance, specialCase, specifics, gender, alignment);
    Chain10(Status(name), Status(enemyAlly), Status(general), Status(race), Status(charClass),
            Status(instance), Status(specialCase), Status(specifics), Status(gender), Status(alignment));
  }

  lemma CAIObjectTypeOfChain(
    name: Result<Option<string>>, enemyAlly: Result<Lookup<EnemyAlly.EnemyAlly>>,
    general: Result<Lookup<OpaqueId>>, race: Result<Lookup<OpaqueId>>,
    charClass: Result<Lookup<OpaqueId>>, instance: Result<int>,
    specialCase: Result<seq<byte>>, specifics: Result<byte>,
    gender: Result<Lookup<Gender.Gender>>, alignment: Result<Lookup<Alignment.Alignment>>)
    ensures Status(CAIObjectTypeOf(name, enemyAlly, general, race, charClass, instance, specialCase, specifics, gender, alignment)) ==
            if !name.Ok? then Status(name) else if !enemyAlly.Ok? then Status(enemyAlly)
            else if !general.Ok? then Status(general) else if !race.Ok? then Status(race)
            else if !charClass.Ok? then Status(charClass) else if !instance.Ok? then Status(instance)
            else if !specialCase.Ok? then Status(specialCase) else if !specifics.Ok? then Status(specifics)
            else if !gender.Ok? then Status(gender) else if !alignment.Ok? then Status(alignment)
            else Ok(())
  {
  }

  lemma CAIObjectTypeOfFields(
    name: Result<Option<string>>, enemyAlly: Result<Lookup<EnemyAlly.EnemyAlly>>,
    general: Result<Lookup<OpaqueId>>, race: Result<Lookup<OpaqueId>>,
    charClass: Result<Lookup<OpaqueId>>, instance: Result<int>,
    specialCase: Result<seq<byte>>, specifics: Result<byte>,
    gender: Result<Lookup<Gender.Gender>>, alignment: Result<Lookup<Alignment.Alignment>>)
    ensures CAIObjectTypeOf(name, enemyAlly, general, race, charClass, instance, specialCase, specifics, gender, alignment).Ok? ==>
              && name.Ok? && enemyAlly.Ok? && general.Ok? && race.Ok? && charClass.Ok? && instance.Ok?
              && specialCase.Ok? && specifics.Ok? && gender.Ok? && alignment.Ok?
              && CAIObjectTypeOf(name, enemyAlly, general, race, charClass, instance, specialCase, specifics, gender, alignment).value ==
                 CAIObjectType(name.value, enemyAlly.value, general.value, race.value, charClass.value, instance.value,
                               specialCase.value, specifics.value, gender.value, alignment.value)
  {
  }

  /** Each field of a decoded record is the value read at its offset. */
  lemma CAIObjectTypeFields(ch: Channel, t: Tables, ptr: RemotePtr<CVoid>)
    ensures CAIObjectTypeNew(ch, t, ptr).Ok? ==>
              var r := CAIObjectTypeNew(ch, t, ptr).value;
              && Ok(r.name) == ReadString(ch, ptr, 0x0, 8)
              && Ok(r.enemyAlly) == ReadLookup(ch, ptr, 0x8, EnemyAlly.TryFrom)
              && Ok(r.general) == ReadLookup(ch, ptr, 0x9, GeneralOf(t))
              && Ok(r.race) == ReadLookup(ch, ptr, 0xA, RaceOf(t))
              && Ok(r.charClass) == ReadLookup(ch, ptr, 0xB, ClassOf(t))
              && Ok(r.instance) == ReadAt(ch, ptr, 0xC, I32)
              && Ok(r.specialCase) == ReadAt(ch, ptr, 0x10, ByteArray(5))
              && Ok(r.specifics) == ReadAt(ch, ptr, 0x15, U8)
              && Ok(r.gender) == ReadLookup(ch, ptr, 0x16, Gender.TryFrom)
              && Ok(r.alignment) == ReadLookup(ch, ptr, 0x17, Alignment.TryFrom)
  {
    CAIObjectTypeOfFields(
      ReadString(ch, ptr, 0x0, 8),
      ReadLookup(ch, ptr, 0x8, EnemyAlly.TryFrom),
      ReadLookup(ch, ptr, 0x9, GeneralOf(t)),
      ReadLookup(ch, ptr, 0xA, RaceOf(t)),
      ReadLookup(ch, ptr, 0xB, ClassOf(t)),
      ReadAt(ch, ptr, 0xC, I32),
      ReadAt(ch, ptr, 0x10, ByteArray(5)),
      ReadAt(ch, ptr, 0x15, U8),
      ReadLookup(ch, ptr, 0x16, Gender.TryFrom),
      ReadLookup(ch, ptr, 0x17, Alignment.TryFrom));
  }

  // ----- CGameObject / CGameAIBase -----

  /** The object tag, read as one byte and recognised by the `ObjectType` table. */
  function DecodeTag(b: seq<byte>): Result<ObjectType.ObjectType>
  {
    ObjectType.TryFrom(Unsigned(b, 1))
  }

  const Tag: Codec<ObjectType.ObjectType> := Codec(1, DecodeTag)

  datatype CGameObject = CGameObject(
    objectType: ObjectType.ObjectType,
    pos: CPoint,
    posZ: int,
    listType: byte,
    typeAi: CAIObjectType,
    id: int,
    canBeSeen: int)

  datatype CGameAIBase = CGameAIBase(gameObject: CGameObject)

  /** `CGameAIBase::new`: nothing for an unused slot; otherwise the object fields at
      0x8, 0xC, 0x14, 0x28, the classification at +0x30, then 0x48 and 0x4C. */
  function CGameAIBaseNew(ch: Channel, t: Tables, entity: EntityPtr): (r: Result<Option<CGameAIBase>>)
    ensures !IsValid(entity) ==> r == Ok(None)
    ensures IsValid(entity) && r.Ok? ==> r.value.Some?
  {
    if !IsValid(entity) then Ok(None)
    else
      var p := entity.ptr;
      CGameAIBaseOf(
        ReadAt(ch, p, 0x8, Tag),
        ReadAt(ch, p, 0xC, Point),
        ReadAt(ch, p, 0x14, I32),
        ReadAt(ch, p, 0x28, U8),
        CAIObjectTypeNew(ch, t, p.ByteOffset(0x30)),
        ReadAt(ch, p, 0x48, I32),
        ReadAt(ch, p, 0x4C, I16))
  }

  function CGameAIBaseOf(objectType: Result<ObjectType.ObjectType>, pos: Result<CPoint>, posZ: Result<int>,
                         listType: Result<byte>, typeAi: Result<CAIObjectType>, id: Result<int>,
                         canBeSeen: Result<int>): (r: Result<Option<CGameAIBase>>)
    ensures r.Ok? ==> r.value.Some?
  {
    var objectType :- objectType;
    var pos :- pos;
    var posZ :- posZ;
    var listType :- listType;
    var typeAi :- typeAi;
    var id :- id;
    var canBeSeen :- canBeSeen;
    Ok(Some(CGameAIBase(CGameObject(objectType, pos, posZ, listType, typeAi, id, canBeSeen))))
  }

  /** An unused slot is answered without looking at memory: the result is the same
      for every channel. */
  lemma AIBaseGuard(ch1: Channel, ch2: Channel, t: Tables, entity: EntityPtr)
    requires !IsValid(entity)
    ensures CGameAIBaseNew(ch1, t, entity) == CGameAIBaseNew(ch2, t, entity) == Ok(None)
  {
  }

  /** For a used slot the decoder succeeds exactly when every read does, and otherwise
      fails as the first failing read does. */
  lemma AIBaseShortCircuits(ch: Channel, t: Tables, entity: EntityPtr)
    requires IsValid(entity)
    ensures var p := entity.ptr;
            Status(CGameAIBaseNew(ch, t, entity)) ==
            FirstFailure([Status(ReadAt(ch, p, 0x8, Tag)),
                          Status(ReadAt(ch, p, 0xC, Point)),
                          Status(ReadAt(ch, p, 0x14, I32)),
                          Status(ReadAt(ch, p, 0x28, U8)),
                          Status(CAIObjectTypeNew(ch, t, p.ByteOffset(0x30))),
                          Status(ReadAt(ch, p, 0x48, I32)),
                          Status(ReadAt(ch, p, 0x4C, I16))])
  {
    var p := entity.ptr;
    AIBaseOfShortCircuits(ReadAt(ch, p, 0x8, Tag), ReadAt(ch, p, 0xC, Point), ReadAt(ch, p, 0x14, I32),
                          ReadAt(ch, p, 0x28, U8), CAIObjectTypeNew(ch, t, p.ByteOffset(0x30)),
                          ReadAt(ch, p, 0x48, I32), ReadAt(ch, p, 0x4C, I16));
  }

  lemma AIBaseOfShortCircuits(objectType: Result<ObjectType.ObjectType>, pos: Result<CPoint>, posZ: Result<int>,
                              listType: Result<byte>, typeAi: Result<CAIObjectType>, id: Result<int>,
                              canBeSeen: Result<int>)
    ensures Status(CGameAIBaseOf(objectType, pos, posZ, listType, typeAi, id, canBeSeen)) ==
            FirstFailure([Status(objectType), Status(pos), Status(posZ), Status(listType), Status(typeAi),
                          Status(id), Status(canBeSeen)])
    ensures CGameAIBaseOf(objectType, pos, posZ, listType, typeAi, id, canBeSeen).Ok? ==>
              CGameAIBaseOf(objectType, pos, posZ, listType, typeAi, id, canBeSeen).value ==
              Some(CGameAIBase(CGameObject(objectType.value, pos.value, posZ.value, listType.value, typeAi.value,
                                           id.value, canBeSeen.value)))
  {
    Chain7(Status(objectType), Status(pos), Status(posZ), Status(listType), Status(typeAi), Status(id),
           Status(canBeSeen));
  }

  /** Each field of a decoded object is the value read at its offset; the kind is the
      tag byte at 0x8, and an unlisted tag is an error. */
  lemma AIBaseFields(ch: Channel, t: Tables, entity: EntityPtr)
    requires IsValid(entity)
    ensures var p := entity.ptr;
            CGameAIBaseNew(ch, t, entity).Ok? ==>
              var o := CGameAIBaseNew(ch, t, entity).value.value.gameObject;
              && Ok(o.objectType) == ReadAt(ch, p, 0x8, Tag)
              && Ok(o.pos) == ReadAt(ch, p, 0xC, Point)
              && Ok(o.posZ) == ReadAt(ch, p, 0x14, I32)
              && Ok(o.listType) == ReadAt(ch, p, 0x28, U8)
              && Ok(o.typeAi) == CAIObjectTypeNew(ch, t, p.ByteOffset(0x30))
              && Ok(o.id) == ReadAt(ch, p, 0x48, I32)
              && Ok(o.canBeSeen) == ReadAt(ch, p, 0x4C, I16)
  {
    var p := entity.ptr;
    AIBaseOfShortCircuits(ReadAt(ch, p, 0x8, Tag), ReadAt(ch, p, 0xC, Point), ReadAt(ch, p, 0x14, I32),
                          ReadAt(ch, p, 0x28, U8), CAIObjectTypeNew(ch, t, p.ByteOffset(0x30)),
                          ReadAt(ch, p, 0x48, I32), ReadAt(ch, p, 0x4C, I16));
  }

  /** The tag read: one byte at 0x8; a byte outside the table is `InvalidEnumValue`. */
  lemma TagRead(ch: Channel, p: RemotePtr<CVoid>)
    ensures var m := ReadMem(ch, p.address + 0x8, 1);
            && (!m.Ok? ==> ReadAt(ch, p, 0x8, Tag) == m.PropagateFailure())
            && (m.Ok? ==> ReadAt(ch, p, 0x8, Tag) == ObjectType.TryFrom(m.value[0]))
  {
    var m := ReadMem(ch, p.address + 0x8, 1);
    if m.Ok? {
      assert Slice(m.value, 0, 1) == m.value == [m.value[0]];
      assert Unsigned(m.value, 1) == m.value[0];
    }
  }

  // ----- CDerivedStats -----

  /** The derived statistics of a creature, all `i16`, in declaration order. */
  datatype CDerivedStats = CDerivedStats(
    maxHp: int, ac: int, thac0: int,
    acCrushMod: int, acMissileMod: int, acPierceMod: int, acSlashMod: int,
    numberOfAttacks: int,
    saveVsDeath: int, saveVsWands: int, saveVsPoly: int, saveVsBreath: int, saveVsSpell: int,
    resistFire: int, resistCold: int, resistElectricity: int, resistAcid: int, resistMagic: int,
    resistMagicFire: int, resistMagicCold: int, resistSlashing: int, resistCrushing: int,
    resistPiercing: int, resistMissile: int,
    level1: int, level2: int, level3: int,
    str: int, strExtra: int, dex: int, con: int, intelligence: int, wis: int, chr: int)

  /** The field offsets in the order the fields are read (the struct expression's order:
      `thac0` before the armour modifiers, and `int`, `wis` before `dex`, `con`). */
  const StatOffsets: seq<int> :=
    [ 0x4, 0x6, 0x10,
      0x8, 0xA, 0xC, 0xE,
      0x12,
      0x14, 0x16, 0x18, 0x1A, 0x1C,
      0x1E, 0x20, 0x22, 0x24, 0x26, 0x28, 0x2A,
      0x2C, 0x2E, 0x30, 0x32,
      0x46, 0x48, 0x4A,
      0x4E, 0x50, 0x52, 0x54, 0x56, 0x58, 0x5A ]

  /** The fields in read order. */
  function StatList(d: CDerivedStats): (v: seq<int>)
    ensures |v| == |StatOffsets|
  {
    [ d.maxHp, d.ac, d.thac0,
      d.acCrushMod, d.acMissileMod, d.acPierceMod, d.acSlashMod,
      d.numberOfAttacks,
      d.saveVsDeath, d.saveVsWands, d.saveVsPoly, d.saveVsBreath, d.saveVsSpell,
      d.resistFire, d.resistCold, d.resistElectricity, d.resistAcid, d.resistMagic, d.resistMagicFire,
      d.resistMagicCold,
      d.resistSlashing, d.resistCrushing, d.resistPiercing, d.resistMissile,
      d.level1, d.level2, d.level3,
      d.str, d.strExtra, d.intelligence, d.wis, d.dex, d.con, d.chr ]
  }

  /** The record from the values in read order. */
  function StatsOf(v: seq<int>): CDerivedStats
    requires |v| == |StatOffsets|
  {
    CDerivedStats(
      maxHp := v[0], ac := v[1], thac0 := v[2],
      acCrushMod := v[3], acMissileMod := v[4], acPierceMod := v[5], acSlashMod := v[6],
      numberOfAttacks := v[7],
      saveVsDeath := v[8], saveVsWands := v[9], saveVsPoly := v[10], saveVsBreath := v[11], saveVsSpell := v[12],
      resistFire := v[13], resistCold := v[14], resistElectricity := v[15], resistAcid := v[16],
      resistMagic := v[17], resistMagicFire := v[18], resistMagicCold := v[19],
      resistSlashing := v[20], resistCrushing := v[21], resistPiercing := v[22], resistMissile := v[23],
      level1 := v[24], level2 := v[25], level3 := v[26],
      str := v[27], strExtra := v[28], intelligence := v[29], wis := v[30], dex := v[31], con := v[32],
      chr := v[33])
  }

  /** A sequence of fields of one layout at the given offsets, read in order and
      stopping at the first failure. */
  function ReadFields<T>(ch: Channel, ptr: RemotePtr<CVoid>, offsets: seq<int>, c: Codec<T>): (r: Result<seq<T>>)
    ensures r.Ok? ==> |r.value| == |offsets| && forall k :: 0 <= k < |offsets| ==> ReadAt(ch, ptr, offsets[k], c) == Ok(r.value[k])
  {
    if offsets == [] then Ok([])
    else
      var x :- ReadAt(ch, ptr, offsets[0], c);
      var rest :- ReadFields(ch, ptr, offsets[1..], c);
      assert forall k :: 1 <= k < |offsets| ==> offsets[k] == offsets[1..][k - 1];
      Ok([x] + rest)
  }

  /** The reads `ReadFields` makes, in order. */
  function FieldSteps<T>(ch: Channel, ptr: RemotePtr<CVoid>, offsets: seq<int>, c: Codec<T>): (s: seq<Result<()>>)
    ensures |s| == |offsets| && forall k :: 0 <= k < |offsets| ==> s[k] == Status(ReadAt(ch, ptr, offsets[k], c))
  {
    if offsets == [] then []
    else
      var rest := FieldSteps(ch, ptr, offsets[1..], c);
      assert forall k :: 1 <= k < |offsets| ==> offsets[k] == offsets[1..][k - 1];
      [Status(ReadAt(ch, ptr, offsets[0], c))] + rest
  }

  /** `ReadFields` succeeds exactly when every read does, and otherwise fails as the
      first failing read does. */
  lemma {:induction false} FieldsShortCircuit<T>(ch: Channel, ptr: RemotePtr<CVoid>, offsets: seq<int>, c: Codec<T>)
    ensures Status(ReadFields(ch, ptr, offsets, c)) == FirstFailure(FieldSteps(ch, ptr, offsets, c))
  {
    if offsets != [] {
      var s := FieldSteps(ch, ptr, offsets, c);
      FieldsShortCircuit(ch, ptr, offsets[1..], c);
      assert s[1..] == FieldSteps(ch, ptr, offsets[1..], c);
      FromShift(s, 0);
    }
  }

  /** `CDerivedStats::new`: 34 `i16` fields at their offsets. */
  function CDerivedStatsNew(ch: Channel, ptr: RemotePtr<CVoid>): Result<CDerivedStats>
  {
    var v :- ReadFields(ch, ptr, StatOffsets, I16);
    Ok(StatsOf(v))
  }

  /** `StatsOf` and `StatList` are inverse: the read order names every field once. */
  lemma StatsRoundTrip(v: seq<int>, d: CDerivedStats)
    ensures |v| == |StatOffsets| ==> StatList(StatsOf(v)) == v
    ensures StatsOf(StatList(d)) == d
  {
  }

  /** Field `k` in read order is the `i16` at `StatOffsets[k]`; in particular the
      abilities come from 0x4E (str), 0x52 (int), 0x54 (wis), 0x56 (dex), 0x58 (con). */
  lemma DerivedStatsFields(ch: Channel, ptr: RemotePtr<CVoid>)
    ensures CDerivedStatsNew(ch, ptr).Ok? ==>
              var d := CDerivedStatsNew(ch, ptr).value;
              && (forall k :: 0 <= k < |StatOffsets| ==> ReadAt(ch, ptr, StatOffsets[k], I16) == Ok(StatList(d)[k]))
              && ReadAt(ch, ptr, 0x4E, I16) == Ok(d.str)
              && ReadAt(ch, ptr, 0x52, I16) == Ok(d.intelligence)
              && ReadAt(ch, ptr, 0x54, I16) == Ok(d.wis)
              && ReadAt(ch, ptr, 0x56, I16) == Ok(d.dex)
              && ReadAt(ch, ptr, 0x58, I16) == Ok(d.con)
  {
    var r := ReadFields(ch, ptr, StatOffsets, I16);
    if r.Ok? {
      StatsRoundTrip(r.value, StatsOf(r.value));
      assert StatOffsets[27] == 0x4E && StatOffsets[29] == 0x52 && StatOffsets[30] == 0x54;
      assert StatOffsets[31] == 0x56 && StatOffsets[32] == 0x58;
    }
  }

  /** The decoder succeeds exactly when all 34 reads do, and otherwise fails as the
      first failing read does. */
  lemma DerivedStatsShortCircuits(ch: Channel, ptr: RemotePtr<CVoid>)
    ensures Status(CDerivedStatsNew(ch, ptr)) == FirstFailure(FieldSteps(ch, ptr, StatOffsets, I16))
  {
    FieldsShortCircuit(ch, ptr, StatOffsets, I16);
  }

  // ----- CCreatureFileHeader -----

  datatype CCreatureFileHeader = CCreatureFileHeader(hp: int, level1: int, level2: int, level3: int)

  /** `CCreatureFileHeader::new`: hit points at 0x1C, the three levels at 0x22C..0x22E. */
  function CCreatureFileHeaderNew(ch: Channel, ptr: RemotePtr<CVoid>): Result<CCreatureFileHeader>
  {
    HeaderOf(ReadAt(ch, ptr, 0x1C, I16), ReadAt(ch, ptr, 0x22C, I8), ReadAt(ch, ptr, 0x22D, I8),
             ReadAt(ch, ptr, 0x22E, I8))
  }

  function HeaderOf(hp: Result<int>, level1: Result<int>, level2: Result<int>, level3: Result<int>)
    : Result<CCreatureFileHeader>
  {
    var hp :- hp;
    var level1 :- level1;
    var level2 :- level2;
    var level3 :- level3;
    Ok(CCreatureFileHeader(hp, level1, level2, level3))
  }

  lemma HeaderOfShortCircuits(hp: Result<int>, level1: Result<int>, level2: Result<int>, level3: Result<int>)
    ensures Status(HeaderOf(hp, level1, level2, level3)) ==
            FirstFailure([Status(hp), Status(level1), Status(level2), Status(level3)])
    ensures HeaderOf(hp, level1, level2, level3).Ok? ==>
              HeaderOf(hp, level1, level2, level3).value == CCreatureFileHeader(hp.value, level1.value, level2.value, level3.value)
  {
    Chain4(Status(hp), Status(level1), Status(level2), Status(level3));
  }

  /** The header is read exactly from its four fields: it succeeds when the four reads
      do, fails as the first failing one, and holds the values read. */
  lemma HeaderReads(ch: Channel, ptr: RemotePtr<CVoid>)
    ensures Status(CCreatureFileHeaderNew(ch, ptr)) ==
            FirstFailure([Status(ReadAt(ch, ptr, 0x1C, I16)), Status(ReadAt(ch, ptr, 0x22C, I8)),
                          Status(ReadAt(ch, ptr, 0x22D, I8)), Status(ReadAt(ch, ptr, 0x22E, I8))])
    ensures CCreatureFileHeaderNew(ch, ptr).Ok? ==>
              var h := CCreatureFileHeaderNew(ch, ptr).value;
              && ReadAt(ch, ptr, 0x1C, I16) == Ok(h.hp)
              && ReadAt(ch, ptr, 0x22C, I8) == Ok(h.level1)
              && ReadAt(ch, ptr, 0x22D, I8) == Ok(h.level2)
              && ReadAt(ch, ptr, 0x22E, I8) == Ok(h.level3)
  {
    HeaderOfShortCircuits(ReadAt(ch, ptr, 0x1C, I16), ReadAt(ch, ptr, 0x22C, I8), ReadAt(ch, ptr, 0x22D, I8),
                          ReadAt(ch, ptr, 0x22E, I8));
  }

  // ----- CGameEffect -----

  /** An effect identifier, kept as the raw 32-bit value read. */
  datatype EffectId = EffectId(value: nat)

  datatype CGameEffect = CGameEffect(
    version: string, res: string, res2: string, res3: string, effectId: EffectId,
    duration: nat, durationType: nat, spellLevel: int, sourceRes: string)

  function DecodeEffectId(b: seq<byte>): Result<EffectId>
  {
    Ok(EffectId(Unsigned(b, 4)))
  }

  const Effect: Codec<EffectId> := Codec(4, DecodeEffectId)

  /** `CGameEffect::new`: the fields sit 8 bytes into the node's payload. */
  function CGameEffectNew(ch: Channel, ptr: RemotePtr<CVoid>): Result<CGameEffect>
  {
    var b := ptr.ByteOffset(0x8);
    EffectOf(ReadResRef(ch, b, 0x0), ReadResRef(ch, b, 0x28), ReadAt(ch, b, 0x10, I32),
             ReadResRef(ch, b, 0x68), ReadResRef(ch, b, 0x70), ReadAt(ch, b, 0x8, Effect),
             ReadAt(ch, b, 0x1C, U32), ReadAt(ch, b, 0x20, U32), ReadResRef(ch, b, 0x8C))
  }

  /** The outcomes in read order: version, res, spell level, res 2, res 3, effect id,
      duration type, duration, source. */
  function EffectOf(version: Result<string>, res: Result<string>, spellLevel: Result<int>, res2: Result<string>,
                    res3: Result<string>, effectId: Result<EffectId>, durationType: Result<nat>,
                    duration: Result<nat>, sourceRes: Result<string>): Result<CGameEffect>
  {
    var version :- version;
    var res :- res;
    var spellLevel :- spellLevel;
    var res2 :- res2;
    var res3 :- res3;
    var effectId :- effectId;
    var durationType :- durationType;
    var duration :- duration;
    var sourceRes :- sourceRes;
    Ok(CGameEffect(version, res, res2, res3, effectId, duration, durationType, spellLevel, sourceRes))
  }

  lemma EffectOfShortCircuits(version: Result<string>, res: Result<string>, spellLevel: Result<int>,
                              res2: Result<string>, res3: Result<string>, effectId: Result<EffectId>,
                              durationType: Result<nat>, duration: Result<nat>, sourceRes: Result<string>)
    ensures Status(EffectOf(version, res, spellLevel, res2, res3, effectId, durationType, duration, sourceRes)) ==
            FirstFailure([Status(version), Status(res), Status(spellLevel), Status(res2), Status(res3),
                          Status(effectId), Status(durationType), Status(duration), Status(sourceRes)])
    ensures EffectOf(version, res, spellLevel, res2, res3, effectId, durationType, duration, sourceRes).Ok? ==>
              EffectOf(version, res, spellLevel, res2, res3, effectId, durationType, duration, sourceRes).value ==
              CGameEffect(version.value, res.value, res2.value, res3.value, effectId.value, duration.value,
                          durationType.value, spellLevel.value, sourceRes.value)
  {
    Chain9(Status(version), Status(res), Status(spellLevel), Status(res2), Status(res3), Status(effectId),
           Status(durationType), Status(duration), Status(sourceRes));
  }

  /** The effect decoder reads its nine fields at `ptr + 8 + offset`, succeeds exactly when
      they all do, fails as the first failing one, and holds the values read. */
  lemma EffectReads(ch: Channel, ptr: RemotePtr<CVoid>)
    ensures var b := ptr.ByteOffset(0x8);
            Status(CGameEffectNew(ch, ptr)) ==
            FirstFailure([Status(ReadResRef(ch, b, 0x0)), Status(ReadResRef(ch, b, 0x28)),
                          Status(ReadAt(ch, b, 0x10, I32)), Status(ReadResRef(ch, b, 0x68)),
                          Status(ReadResRef(ch, b, 0x70)), Status(ReadAt(ch, b, 0x8, Effect)),
                          Status(ReadAt(ch, b, 0x1C, U32)), Status(ReadAt(ch, b, 0x20, U32)),
                          Status(ReadResRef(ch, b, 0x8C))])
    ensures var b := ptr.ByteOffset(0x8);
            CGameEffectNew(ch, ptr).Ok? ==>
              var e := CGameEffectNew(ch, ptr).value;
              && ReadResRef(ch, b, 0x0) == Ok(e.version)
              && ReadResRef(ch, b, 0x28) == Ok(e.res)
              && ReadAt(ch, b, 0x10, I32) == Ok(e.spellLevel)
              && ReadResRef(ch, b, 0x68) == Ok(e.res2)
              && ReadResRef(ch, b, 0x70) == Ok(e.res3)
              && ReadAt(ch, b, 0x8, Effect) == Ok(e.effectId)
              && ReadAt(ch, b, 0x1C, U32) == Ok(e.durationType)
              && ReadAt(ch, b, 0x20, U32) == Ok(e.duration)
              && ReadResRef(ch, b, 0x8C) == Ok(e.sourceRes)
  {
    var b := ptr.ByteOffset(0x8);
    EffectOfShortCircuits(ReadResRef(ch, b, 0x0), ReadResRef(ch, b, 0x28), ReadAt(ch, b, 0x10, I32),
                          ReadResRef(ch, b, 0x68), ReadResRef(ch, b, 0x70), ReadAt(ch, b, 0x8, Effect),
                          ReadAt(ch, b, 0x1C, U32), ReadAt(ch, b, 0x20, U32), ReadResRef(ch, b, 0x8C));
  }
}
