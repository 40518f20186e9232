/** The EnemyAlly identifier table (core/src/ids/enemy_ally.rs): a creature's allegiance. */
module EnemyAlly {
  import opened Bytes
  import opened Errors
  import Wrappers
  import IntEnum

  datatype EnemyAlly =
    | Anyone | Inanimate | Pc | Familiar | Ally | Controlled | Charmed | Reallycharmed
    | GoodButRed | GoodButBlue | Goodcutoff | Notgood | Anything | AreaObject | Neutral
    | NotNeutral | NotEvil | EvilCutoff | EvilButGreen | EvilButBlue | CharmedPc | Enemy

  const Name: string := "EnemyAlly"

  const Variants: seq<EnemyAlly> :=
    [ Anyone, Inanimate, Pc, Familiar, Ally, Controlled, Charmed, Reallycharmed, GoodButRed,
      GoodButBlue, Goodcutoff, Notgood, Anything, AreaObject, Neutral, NotNeutral, NotEvil,
      EvilCutoff, EvilButGreen, EvilButBlue, CharmedPc, Enemy ]

  /** The listed values in increasing order, and as a set. */
  const ValueList: seq<byte> :=
    [0, 1, 2, 3, 4, 5, 6, 7, 28, 29, 30, 31, 126, 127, 128, 198, 199, 200, 201, 202, 254, 255]

  const Values: set<byte> :=
    {0, 1, 2, 3, 4, 5, 6, 7, 28, 29, 30, 31, 126, 127, 128, 198, 199, 200, 201, 202, 254, 255}

  /** The discriminant, `k as u8`. */
  function Value(k: EnemyAlly): byte
  {
    match k
    case Anyone => 0
    case Inanimate => 1
    case Pc => 2
    case Familiar => 3
    case Ally => 4
    case Controlled => 5
    case Charmed => 6
    case Reallycharmed => 7
    case GoodButRed => 28
    case GoodButBlue => 29
    case Goodcutoff => 30
    case Notgood => 31
    case Anything => 126
    case AreaObject => 127
    case Neutral => 128
    case NotNeutral => 198
    case NotEvil => 199
    case EvilCutoff => 200
    case EvilButGreen => 201
    case EvilButBlue => 202
    case CharmedPc => 254
    case Enemy => 255
  }

  /** The generated `TryFrom<u8>`. */
  function TryFrom(x: byte): Wrappers.Result<EnemyAlly>
  {
    match x
    case 0 => Wrappers.Ok(Anyone)
    case 1 => Wrappers.Ok(Inanimate)
    case 2 => Wrappers.Ok(Pc)
    case 3 => Wrappers.Ok(Familiar)
    case 4 => Wrappers.Ok(Ally)
    case 5 => Wrappers.Ok(Controlled)
    case 6 => Wrappers.Ok(Charmed)
    case 7 => Wrappers.Ok(Reallycharmed)
    case 28 => Wrappers.Ok(GoodButRed)
    case 29 => Wrappers.Ok(GoodButBlue)
    case 30 => Wrappers.Ok(Goodcutoff)
    case 31 => Wrappers.Ok(Notgood)
    case 126 => Wrappers.Ok(Anything)
    case 127 => Wrappers.Ok(AreaObject)
    case 128 => Wrappers.Ok(Neutral)
    case 198 => Wrappers.Ok(NotNeutral)
    case 199 => Wrappers.Ok(NotEvil)
    case 200 => Wrappers.Ok(EvilCutoff)
    case 201 => Wrappers.Ok(EvilButGreen)
    case 202 => Wrappers.Ok(EvilButBlue)
    case 254 => Wrappers.Ok(CharmedPc)
    case 255 => Wrappers.Ok(Enemy)
    case _ => Wrappers.Err(IntEnum.InvalidValue(Name, x))
  }

  /** The table obeys the `int_enum!` contract, on exactly 22 values. */
  lemma Table()
    ensures IntEnum.Lawful(Name, Variants, Value, Values, TryFrom)
    ensures |Variants| == 22 && |Values| == 22
  {
    forall k: EnemyAlly ensures k in Variants {
      assert Variants[Position(k)] == k;
    }
    forall i | 0 <= i < |Variants| ensures TryFrom(Value(Variants[i])) == Wrappers.Ok(Variants[i]) {
      RoundTrip(Variants[i]);
    }
    forall x: byte ensures TryFrom(x).Ok? ==> Value(TryFrom(x).value) == x {
      Found(x);
    }
    forall x: byte ensures TryFrom(x).Ok? <==> x in Values {
      Found(x);
    }
    forall x: byte ensures x !in Values ==> TryFrom(x) == Wrappers.Err(IntEnum.InvalidValue(Name, x)) {
      Found(x);
    }
    forall x: byte ensures !TryFrom(x).Panic? {
      Found(x);
    }
    Count();
  }

  lemma Count()
    ensures |Variants| == 22 && |Values| == 22
  {
    IntEnum.IncreasingCount(ValueList);
    assert Values == IntEnum.Elements(ValueList);
  }

  /** Where a variant sits in `Variants`. */
  function Position(k: EnemyAlly): (i: nat)
    ensures i < |Variants| && Variants[i] == k
  {
    match k

    case Anyone => 0
    case Inanimate => 1
    case Pc => 2
    case Familiar => 3
    case Ally => 4
    case Controlled => 5
    case Charmed => 6
    case Reallycharmed => 7
    case GoodButRed => 8
    case GoodButBlue => 9
    case Goodcutoff => 10
    case Notgood => 11
    case Anything => 12
    case AreaObject => 13
    case Neutral => 14
    case NotNeutral => 15
    case NotEvil => 16
    case EvilCutoff => 17
    case EvilButGreen => 18
    case EvilButBlue => 19
    case CharmedPc => 20
    case Enemy => 21
  }

  lemma RoundTrip(k: EnemyAlly)
    ensures TryFrom(Value(k)) == Wrappers.Ok(k)
  {
  }

  lemma Found(x: byte)
    ensures TryFrom(x).Ok? <==> x in Values
    ensures TryFrom(x).Ok? ==> Value(TryFrom(x).value) == x
    ensures !TryFrom(x).Ok? ==> TryFrom(x) == Wrappers.Err(IntEnum.InvalidValue(Name, x))
  {
    Listed(x);
    Preserving(x);
    Rejected(x);
  }

  lemma Listed(x: byte)
    ensures TryFrom(x).Ok? <==> x in Values
  {
  }

  lemma Preserving(x: byte)
    ensures TryFrom(x).Ok? ==> Value(TryFrom(x).value) == x
  {
  }

  lemma Rejected(x: byte)
    ensures !TryFrom(x).Ok? ==> TryFrom(x) == Wrappers.Err(IntEnum.InvalidValue(Name, x))
  {
  }


  /** The named values: 2 is a party member, 255 an enemy, and both map back; the gaps
      in the table are kept raw by the lookup. */
  lemma Landmarks()
    ensures TryFrom(2) == Wrappers.Ok(Pc) && Value(Pc) == 2
    ensures TryFrom(255) == Wrappers.Ok(Enemy) && Value(Enemy) == 255
    ensures forall x: byte :: (8 <= x <= 27 || 32 <= x <= 125 || 129 <= x <= 197) ==>
              IntEnum.ToLookup(TryFrom, x) == IntEnum.Unknown(x)
  {
    forall x: byte | 8 <= x <= 27 || 32 <= x <= 125 || 129 <= x <= 197
      ensures IntEnum.ToLookup(TryFrom, x) == IntEnum.Unknown(x)
    {
      Found(x);
    }
  }

}
