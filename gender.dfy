/** The Gender identifier table (core/src/ids/gender.rs). */
module Gender {
  import opened Bytes
  import opened Errors
  import Wrappers
  import IntEnum

  datatype Gender =
    | Male | Female | Other | Niether | Both | Summoned | Illusionary | Extra
    | SummonedDemon | Extra2 | Extra3 | Extra4 | Extra5 | Extra6 | Extra7 | Extra8 | Extra9
    | Extra10 | ImprisonedSummoned

  const Name: string := "Gender"

  const Variants: seq<Gender> :=
    [ Male, Female, Other, Niether, Both, Summoned, Illusionary, Extra, SummonedDemon,
      Extra2, Extra3, Extra4, Extra5, Extra6, Extra7, Extra8, Extra9, Extra10,
      ImprisonedSummoned ]

  /** The listed values in increasing order, and as a set. */
  const ValueList: seq<byte> :=
    [1, 2, 3, 4, 5, 6, 7, 8, 9, 10, 11, 12, 13, 14, 15, 16, 17, 18, 66]

  const Values: set<byte> :=
    {1, 2, 3, 4, 5, 6, 7, 8, 9, 10, 11, 12, 13, 14, 15, 16, 17, 18, 66}

  /** The discriminant, `k as u8`. */
  function Value(k: Gender): byte
  {
    match k
    case Male => 1
    case Female => 2
    case Other => 3
    case Niether => 4
    case Both => 5
    case Summoned => 6
    case Illusionary => 7
    case Extra => 8
    case SummonedDemon => 9
    case Extra2 => 10
    case Extra3 => 11
    case Extra4 => 12
    case Extra5 => 13
    case Extra6 => 14
    case Extra7 => 15
    case Extra8 => 16
    case Extra9 => 17
    case Extra10 => 18
    case ImprisonedSummoned => 66
  }

  /** The generated `TryFrom<u8>`. */
  function TryFrom(x: byte): Wrappers.Result<Gender>
  {
    match x
    case 1 => Wrappers.Ok(Male)
    case 2 => Wrappers.Ok(Female)
    case 3 => Wrappers.Ok(Other)
    case 4 => Wrappers.Ok(Niether)
    case 5 => Wrappers.Ok(Both)
    case 6 => Wrappers.Ok(Summoned)
    case 7 => Wrappers.Ok(Illusionary)
    case 8 => Wrappers.Ok(Extra)
    case 9 => Wrappers.Ok(SummonedDemon)
    case 10 => Wrappers.Ok(Extra2)
    case 11 => Wrappers.Ok(Extra3)
    case 12 => Wrappers.Ok(Extra4)
    case 13 => Wrappers.Ok(Extra5)
    case 14 => Wrappers.Ok(Extra6)
    case 15 => Wrappers.Ok(Extra7)
    case 16 => Wrappers.Ok(Extra8)
    case 17 => Wrappers.Ok(Extra9)
    case 18 => Wrappers.Ok(Extra10)
    case 66 => Wrappers.Ok(ImprisonedSummoned)
    case _ => Wrappers.Err(IntEnum.InvalidValue(Name, x))
  }

  /** The table obeys the `int_enum!` contract, on exactly 19 values. */
  lemma Table()
    ensures IntEnum.Lawful(Name, Variants, Value, Values, TryFrom)
    ensures |Variants| == 19 && |Values| == 19
  {
    forall k: Gender ensures k in Variants {
      assert Variants[Position(k)] == k;
    }
    forall i | 0 <= i < |Variants| ensures TryFrom(Value(Variants[i])) == Wrappers.Ok(Variants[i]) {
      RoundTrip(Variants[i]);
    }
    forall x: byte ensures TryFrom(x).Ok? ==> Value(TryFrom(x).value) == x {
      Found(x);
    }
    forall x: byte ensures TryFrom(x).Ok? <==> x in Values {
      Found(x);
    }
    forall x: byte ensures x !in Values ==> TryFrom(x) == Wrappers.Err(IntEnum.InvalidValue(Name, x)) {
      Found(x);
    }
    forall x: byte ensures !TryFrom(x).Panic? {
      Found(x);
    }
    Count();
  }

  lemma Count()
    ensures |Variants| == 19 && |Values| == 19
  {
    IntEnum.IncreasingCount(ValueList);
    assert Values == IntEnum.Elements(ValueList);
  }

  /** Where a variant sits in `Variants`. */
  function Position(k: Gender): (i: nat)
    ensures i < |Variants| && Variants[i] == k
  {
    match k

    case Male => 0
    case Female => 1
    case Other => 2
    case Niether => 3
    case Both => 4
    case Summoned => 5
    case Illusionary => 6
    case Extra => 7
    case SummonedDemon => 8
    case Extra2 => 9
    case Extra3 => 10
    case Extra4 => 11
    case Extra5 => 12
    case Extra6 => 13
    case Extra7 => 14
    case Extra8 => 15
    case Extra9 => 16
    case Extra10 => 17
    case ImprisonedSummoned => 18
  }

  lemma RoundTrip(k: Gender)
    ensures TryFrom(Value(k)) == Wrappers.Ok(k)
  {
  }

  lemma Found(x: byte)
    ensures TryFrom(x).Ok? <==> x in Values
    ensures TryFrom(x).Ok? ==> Value(TryFrom(x).value) == x
    ensures !TryFrom(x).Ok? ==> TryFrom(x) == Wrappers.Err(IntEnum.InvalidValue(Name, x))
  {
    Listed(x);
    Preserving(x);
    Rejected(x);
  }

  lemma Listed(x: byte)
    ensures TryFrom(x).Ok? <==> x in Values
  {
  }

  lemma Preserving(x: byte)
    ensures TryFrom(x).Ok? ==> Value(TryFrom(x).value) == x
  {
  }

  lemma Rejected(x: byte)
    ensures !TryFrom(x).Ok? ==> TryFrom(x) == Wrappers.Err(IntEnum.InvalidValue(Name, x))
  {
  }


  /** 0 is no gender, so a zeroed field reads as `Unknown(0)`; 66 is an imprisoned summon. */
  lemma Landmarks()
    ensures IntEnum.ToLookup(TryFrom, 0) == IntEnum.Unknown(0)
    ensures TryFrom(66) == Wrappers.Ok(ImprisonedSummoned) && Value(ImprisonedSummoned) == 66
    ensures forall x: byte :: TryFrom(x).Ok? <==> (1 <= x <= 18 || x == 66)
  {
    forall x: byte ensures TryFrom(x).Ok? <==> (1 <= x <= 18 || x == 66) {
      Found(x);
    }
  }

}
