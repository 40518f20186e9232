/** The lookup that the `int_enum!` macro generates for every identifier table
    (core/src/ids/mod.rs), stated once over a table's variants, their values and its
    `try_from`, and the `Lookup` wrapper (core/src/types.rs) that keeps an unknown raw
    value instead of failing. */
module IntEnum {
  import opened Bytes
  import opened Errors
  import opened Wrappers
  import Radix

  /** The error `try_from` gives for a value outside the table: the table's name and
      the value in decimal. */
  function InvalidValue(name: string, x: byte): Error
  {
    InvalidEnumValue(name, Radix.Decimal(x))
  }

  /** The error names the table and carries the rejected value: its text parses back
      as a `u8`. */
  lemma InvalidValueNamesValue(name: string, x: byte)
    ensures InvalidValue(name, x).enumType == name
    ensures Radix.ParseUnsigned(InvalidValue(name, x).value, 10, 256) == Some(x)
  {
    Radix.ParseFormat(x, 10, 256);
  }

  /** What the generated `try_from` promises for a table named `name` whose variants
      are `variants`, whose discriminant function is `value` and whose listed values
      are `values`. */
  ghost predicate Lawful<K(!new)>(name: string, variants: seq<K>, value: K -> byte, values: set<byte>,
                             tryFrom: byte -> Result<K>)
  {
    // every variant is listed, and is found again from its own value
    && (forall k: K :: k in variants)
    && (forall i :: 0 <= i < |variants| ==> tryFrom(value(variants[i])) == Ok(variants[i]))
    // a found variant has the value that was looked up
    && (forall x: byte :: tryFrom(x).Ok? ==> value(tryFrom(x).value) == x)
    // exactly the listed values are found
    && (forall x: byte :: tryFrom(x).Ok? <==> x in values)
    // anything else is the table's error, and nothing panics
    && (forall x: byte :: x !in values ==> tryFrom(x) == Err(InvalidValue(name, x)))
    && (forall x: byte :: !tryFrom(x).Panic?)
  }

  /** A table's values listed in increasing order, so that no value repeats. */
  predicate Increasing(s: seq<byte>)
  {
    forall i :: 0 < i < |s| ==> s[i - 1] < s[i]
  }

  ghost function Elements(s: seq<byte>): set<byte>
  {
    set x | x in s
  }

  lemma {:induction false} IncreasingHead(s: seq<byte>)
    requires Increasing(s) && |s| > 0
    ensures forall j :: 0 < j < |s| ==> s[0] < s[j]
  {
    if |s| > 1 {
      IncreasingHead(s[1..]);
      assert forall j :: 1 < j < |s| ==> s[1] < s[j] by {
        forall j | 1 < j < |s| ensures s[1] < s[j] {
          assert s[1..][j - 1] == s[j];
        }
      }
    }
  }

  /** An increasing listing has as many distinct elements as entries. */
  lemma {:induction false} IncreasingCount(s: seq<byte>)
    requires Increasing(s)
    ensures |Elements(s)| == |s|
  {
    if s != [] {
      IncreasingHead(s);
      IncreasingCount(s[1..]);
      assert Elements(s) == {s[0]} + Elements(s[1..]);
      assert s[0] !in Elements(s[1..]);
    }
  }

  /** `Lookup<T, U>`: a recognised value, or the raw value kept as it was read. */
  datatype Lookup<T, U> = Found(found: T) | Unknown(raw: U)
  {
    /** `Lookup::to_option`. */
    function ToOption(): (r: Option<T>)
      ensures r.Some? <==> Found?
      ensures Found? ==> r.value == found
    {
      match this
      case Found(f) => Some(f)
      case Unknown(_) => None
    }
  }

  /** The `to_lookup!` conversion: `try_from(x).map(Found).unwrap_or(Unknown(x))`. */
  function ToLookup<K>(tryFrom: byte -> Result<K>, x: byte): Lookup<K, byte>
  {
    match tryFrom(x)
    case Ok(k) => Found(k)
    case _ => Unknown(x)
  }

  /** Distinct variants have distinct values: the table is a bijection between its
      variants and its listed values. */
  lemma DistinctValues<K(!new)>(name: string, variants: seq<K>, value: K -> byte, values: set<byte>,
                              tryFrom: byte -> Result<K>)
    requires Lawful(name, variants, value, values, tryFrom)
    ensures forall i, j :: 0 <= i < |variants| && 0 <= j < |variants| && variants[i] != variants[j] ==>
              value(variants[i]) != value(variants[j])
    ensures forall i :: 0 <= i < |variants| ==> value(variants[i]) in values
    ensures forall x :: x in values ==> exists i :: 0 <= i < |variants| && value(variants[i]) == x
  {
    forall x | x in values
      ensures exists i :: 0 <= i < |variants| && value(variants[i]) == x
    {
      var k := tryFrom(x).value;
      assert k in variants;
      var i :| 0 <= i < |variants| && variants[i] == k;
      assert value(variants[i]) == x;
    }
  }

  /** A lookup never fails: a listed value is found as the variant with that value, any
      other value is kept raw. */
  lemma LookupKeepsRaw<K(!new)>(name: string, variants: seq<K>, value: K -> byte, values: set<byte>,
                              tryFrom: byte -> Result<K>, x: byte)
    requires Lawful(name, variants, value, values, tryFrom)
    ensures ToLookup(tryFrom, x).Found? <==> x in values
    ensures ToLookup(tryFrom, x).Found? ==> value(ToLookup(tryFrom, x).found) == x
    ensures ToLookup(tryFrom, x).Unknown? ==> ToLookup(tryFrom, x) == Unknown(x)
  {
  }
}
