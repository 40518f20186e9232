/** The `ObjectType` tag of a game object (core/src/types.rs, and the same table in
    src/types.rs): a `repr(u8)` enumeration read straight from memory. */
module ObjectType {
  import opened Bytes
  import opened Errors
  import Wrappers
  import IntEnum

  datatype ObjectType =
    | None | AiBase | Sound | Container | Spawning | Door | Static | Sprite | ObjectMarker
    | Trigger | TiledObject | Temporal | AreaAi | Fireball | GameAi

  const Name: string := "ObjectType"

  const Variants: seq<ObjectType> :=
    [ None, AiBase, Sound, Container, Spawning, Door, Static, Sprite, ObjectMarker, Trigger,
      TiledObject, Temporal, AreaAi, Fireball, GameAi ]

  /** The listed values in increasing order, and as a set. */
  const ValueList: seq<byte> :=
    [0x00, 0x01, 0x10, 0x11, 0x20, 0x21, 0x30, 0x31, 0x40, 0x41, 0x51, 0x60, 0x61, 0x70, 0x71]

  const Values: set<byte> :=
    {0x00, 0x01, 0x10, 0x11, 0x20, 0x21, 0x30, 0x31, 0x40, 0x41, 0x51, 0x60, 0x61, 0x70, 0x71}

  /** The discriminant, `k as u8`. */
  function Value(k: ObjectType): byte
  {
    match k
    case None => 0x00
    case AiBase => 0x01
    case Sound => 0x10
    case Container => 0x11
    case Spawning => 0x20
    case Door => 0x21
    case Static => 0x30
    case Sprite => 0x31
    case ObjectMarker => 0x40
    case Trigger => 0x41
    case TiledObject => 0x51
    case Temporal => 0x60
    case AreaAi => 0x61
    case Fireball => 0x70
    case GameAi => 0x71
  }

  /** The tag read as an `ObjectType`. The source reinterprets the byte as the enumeration
      without a check; the model makes an unlisted tag an error. */
  function TryFrom(x: byte): Wrappers.Result<ObjectType>
  {
    match x
    case 0x00 => Wrappers.Ok(None)
    case 0x01 => Wrappers.Ok(AiBase)
    case 0x10 => Wrappers.Ok(Sound)
    case 0x11 => Wrappers.Ok(Container)
    case 0x20 => Wrappers.Ok(Spawning)
    case 0x21 => Wrappers.Ok(Door)
    case 0x30 => Wrappers.Ok(Static)
    case 0x31 => Wrappers.Ok(Sprite)
    case 0x40 => Wrappers.Ok(ObjectMarker)
    case 0x41 => Wrappers.Ok(Trigger)
    case 0x51 => Wrappers.Ok(TiledObject)
    case 0x60 => Wrappers.Ok(Temporal)
    case 0x61 => Wrappers.Ok(AreaAi)
    case 0x70 => Wrappers.Ok(Fireball)
    case 0x71 => Wrappers.Ok(GameAi)
    case _ => Wrappers.Err(IntEnum.InvalidValue(Name, x))
  }

  /** The table obeys the same lookup contract as the identifier tables, on exactly 15 values. */
  lemma Table()
    ensures IntEnum.Lawful(Name, Variants, Value, Values, TryFrom)
    ensures |Variants| == 15 && |Values| == 15
  {
    forall k: ObjectType ensures k in Variants {
      assert Variants[Position(k)] == k;
    }
    forall i | 0 <= i < |Variants| ensures TryFrom(Value(Variants[i])) == Wrappers.Ok(Variants[i]) {
      RoundTrip(Variants[i]);
    }
    forall x: byte ensures TryFrom(x).Ok? ==> Value(TryFrom(x).value) == x {
      Found(x);
    }
    forall x: byte ensures TryFrom(x).Ok? <==> x in Values {
      Found(x);
    }
    forall x: byte ensures x !in Values ==> TryFrom(x) == Wrappers.Err(IntEnum.InvalidValue(Name, x)) {
      Found(x);
    }
    forall x: byte ensures !TryFrom(x).Panic? {
      Found(x);
    }
    Count();
  }

  lemma Count()
    ensures |Variants| == 15 && |Values| == 15
  {
    IntEnum.IncreasingCount(ValueList);
    assert Values == IntEnum.Elements(ValueList);
  }

  /** Where a variant sits in `Variants`. */
  function Position(k: ObjectType): (i: nat)
    ensures i < |Variants| && Variants[i] == k
  {
    match k

    case None => 0
    case AiBase => 1
    case Sound => 2
    case Container => 3
    case Spawning => 4
    case Door => 5
    case Static => 6
    case Sprite => 7
    case ObjectMarker => 8
    case Trigger => 9
    case TiledObject => 10
    case Temporal => 11
    case AreaAi => 12
    case Fireball => 13
    case GameAi => 14
  }

  lemma RoundTrip(k: ObjectType)
    ensures TryFrom(Value(k)) == Wrappers.Ok(k)
  {
  }

  lemma Found(x: byte)
    ensures TryFrom(x).Ok? <==> x in Values
    ensures TryFrom(x).Ok? ==> Value(TryFrom(x).value) == x
    ensures !TryFrom(x).Ok? ==> TryFrom(x) == Wrappers.Err(IntEnum.InvalidValue(Name, x))
  {
    Listed(x);
    Preserving(x);
    Rejected(x);
  }

  lemma Listed(x: byte)
    ensures TryFrom(x).Ok? <==> x in Values
  {
  }

  lemma Preserving(x: byte)
    ensures TryFrom(x).Ok? ==> Value(TryFrom(x).value) == x
  {
  }

  lemma Rejected(x: byte)
    ensures !TryFrom(x).Ok? ==> TryFrom(x) == Wrappers.Err(IntEnum.InvalidValue(Name, x))
  {
  }


  /** A sprite is tag 0x31, and no other tag is a sprite. */
  lemma SpriteTag(x: byte)
    ensures TryFrom(x) == Wrappers.Ok(Sprite) <==> x == 0x31
  {
    Found(x);
  }

}
