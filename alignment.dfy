/** The Alignment identifier table (core/src/ids/alignment.rs): law/chaos in the high
    nibble, good/evil in the low nibble. */
module Alignment {
  import opened Bytes
  import opened Errors
  import Wrappers
  import IntEnum

  datatype Alignment =
    | None | LawfulGood | LawfulNeutral | LawfulEvil | NeutralGood | Neutral | NeutralEvil
    | ChaoticGood | ChaoticNeutral | ChaoticEvil | MaskGood | MaskGENeutral | MaskEvil
    | MaskLawful | MaskLCNeutral | MaskChaotic

  const Name: string := "Alignment"

  const Variants: seq<Alignment> :=
    [ None, LawfulGood, LawfulNeutral, LawfulEvil, NeutralGood, Neutral, NeutralEvil,
      ChaoticGood, ChaoticNeutral, ChaoticEvil, MaskGood, MaskGENeutral, MaskEvil,
      MaskLawful, MaskLCNeutral, MaskChaotic ]

  /** The listed values in increasing order, and as a set. */
  const ValueList: seq<byte> :=
    [0x00, 0x01, 0x02, 0x03, 0x10, 0x11, 0x12, 0x13, 0x20, 0x21, 0x22, 0x23, 0x30, 0x31,
     0x32, 0x33]

  const Values: set<byte> :=
    {0x00, 0x01, 0x02, 0x03, 0x10, 0x11, 0x12, 0x13, 0x20, 0x21, 0x22, 0x23, 0x30, 0x31,
     0x32, 0x33}

  /** The discriminant, `k as u8`. */
  function Value(k: Alignment): byte
  {
    match k
    case None => 0x00
    case LawfulGood => 0x11
    case LawfulNeutral => 0x12
    case LawfulEvil => 0x13
    case NeutralGood => 0x21
    case Neutral => 0x22
    case NeutralEvil => 0x23
    case ChaoticGood => 0x31
    case ChaoticNeutral => 0x32
    case ChaoticEvil => 0x33
    case MaskGood => 0x01
    case MaskGENeutral => 0x02
    case MaskEvil => 0x03
    case MaskLawful => 0x10
    case MaskLCNeutral => 0x20
    case MaskChaotic => 0x30
  }

  /** The generated `TryFrom<u8>`. */
  function TryFrom(x: byte): Wrappers.Result<Alignment>
  {
    match x
    case 0x00 => Wrappers.Ok(None)
    case 0x11 => Wrappers.Ok(LawfulGood)
    case 0x12 => Wrappers.Ok(LawfulNeutral)
    case 0x13 => Wrappers.Ok(LawfulEvil)
    case 0x21 => Wrappers.Ok(NeutralGood)
    case 0x22 => Wrappers.Ok(Neutral)
    case 0x23 => Wrappers.Ok(NeutralEvil)
    case 0x31 => Wrappers.Ok(ChaoticGood)
    case 0x32 => Wrappers.Ok(ChaoticNeutral)
    case 0x33 => Wrappers.Ok(ChaoticEvil)
    case 0x01 => Wrappers.Ok(MaskGood)
    case 0x02 => Wrappers.Ok(MaskGENeutral)
    case 0x03 => Wrappers.Ok(MaskEvil)
    case 0x10 => Wrappers.Ok(MaskLawful)
    case 0x20 => Wrappers.Ok(MaskLCNeutral)
    case 0x30 => Wrappers.Ok(MaskChaotic)
    case _ => Wrappers.Err(IntEnum.InvalidValue(Name, x))
  }

  /** The table obeys the `int_enum!` contract, on exactly 16 values. */
  lemma Table()
    ensures IntEnum.Lawful(Name, Variants, Value, Values, TryFrom)
    ensures |Variants| == 16 && |Values| == 16
  {
    forall k: Alignment ensures k in Variants {
      assert Variants[Position(k)] == k;
    }
    forall i | 0 <= i < |Variants| ensures TryFrom(Value(Variants[i])) == Wrappers.Ok(Variants[i]) {
      RoundTrip(Variants[i]);
    }
    forall x: byte ensures TryFrom(x).Ok? ==> Value(TryFrom(x).value) == x {
      Found(x);
    }
    forall x: byte ensures TryFrom(x).Ok? <==> x in Values {
      Found(x);
    }
    forall x: byte ensures x !in Values ==> TryFrom(x) == Wrappers.Err(IntEnum.InvalidValue(Name, x)) {
      Found(x);
    }
    forall x: byte ensures !TryFrom(x).Panic? {
      Found(x);
    }
    Count();
  }

  lemma Count()
    ensures |Variants| == 16 && |Values| == 16
  {
    IntEnum.IncreasingCount(ValueList);
    assert Values == IntEnum.Elements(ValueList);
  }

  /** Where a variant sits in `Variants`. */
  function Position(k: Alignment): (i: nat)
    ensures i < |Variants| && Variants[i] == k
  {
    match k

    case None => 0
    case LawfulGood => 1
    case LawfulNeutral => 2
    case LawfulEvil => 3
    case NeutralGood => 4
    case Neutral => 5
    case NeutralEvil => 6
    case ChaoticGood => 7
    case ChaoticNeutral => 8
    case ChaoticEvil => 9
    case MaskGood => 10
    case MaskGENeutral => 11
    case MaskEvil => 12
    case MaskLawful => 13
    case MaskLCNeutral => 14
    case MaskChaotic => 15
  }

  lemma RoundTrip(k: Alignment)
    ensures TryFrom(Value(k)) == Wrappers.Ok(k)
  {
  }

  lemma Found(x: byte)
    ensures TryFrom(x).Ok? <==> x in Values
    ensures TryFrom(x).Ok? ==> Value(TryFrom(x).value) == x
    ensures !TryFrom(x).Ok? ==> TryFrom(x) == Wrappers.Err(IntEnum.InvalidValue(Name, x))
  {
    Listed(x);
    Preserving(x);
    Rejected(x);
  }

  lemma Listed(x: byte)
    ensures TryFrom(x).Ok? <==> x in Values
  {
  }

  lemma Preserving(x: byte)
    ensures TryFrom(x).Ok? ==> Value(TryFrom(x).value) == x
  {
  }

  lemma Rejected(x: byte)
    ensures !TryFrom(x).Ok? ==> TryFrom(x) == Wrappers.Err(IntEnum.InvalidValue(Name, x))
  {
  }


  /** The nine combined alignments. */
  const Combined: seq<Alignment> :=
    [ LawfulGood, LawfulNeutral, LawfulEvil, NeutralGood, Neutral, NeutralEvil,
      ChaoticGood, ChaoticNeutral, ChaoticEvil ]

  /** A combined alignment is a law/chaos mask in the high nibble plus a good/evil mask
      in the low nibble, and both nibbles are themselves listed mask variants. */
  lemma CombinedNibbles()
    ensures forall k :: k in Combined ==>
              && Value(k) / 16 * 16 in {0x10, 0x20, 0x30}
              && Value(k) % 16 in {0x01, 0x02, 0x03}
              && TryFrom(Value(k) / 16 * 16).Ok?
              && TryFrom(Value(k) % 16).Ok?
    ensures TryFrom(0x00) == Wrappers.Ok(None)
  {
  }

  /** Nibble combinations outside the table are not alignments. */
  lemma Unrecognised()
    ensures IntEnum.ToLookup(TryFrom, 0x04) == IntEnum.Unknown(0x04)
    ensures IntEnum.ToLookup(TryFrom, 0x14) == IntEnum.Unknown(0x14)
    ensures IntEnum.ToLookup(TryFrom, 0x40) == IntEnum.Unknown(0x40)
  {
  }

}
