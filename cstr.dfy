/** The C strings of the standard library: `CStr::from_bytes_with_nul`,
    `CStr::from_bytes_until_nul`, and the search for the first NUL byte. */
module CStrs {
  import opened Bytes
  import opened Wrappers

  /** The position of the first NUL byte. */
  function FirstNul(b: seq<byte>): (r: Option<nat>)
    ensures r.Some? ==> r.value < |b| && b[r.value] == 0 && forall j :: 0 <= j < r.value ==> b[j] != 0
    ensures r.None? <==> forall j :: 0 <= j < |b| ==> b[j] != 0
  {
    if b == [] then None
    else if b[0] == 0 then Some(0)
    else match FirstNul(b[1..])
      case Some(i) => Some(i + 1)
      case None => None
  }

  /** `CStr::from_bytes_with_nul`: the bytes must end in their only NUL; the C string
      is what comes before it. */
  function FromBytesWithNul(b: seq<byte>): (r: Option<seq<byte>>)
    ensures r.Some? <==> |b| > 0 && b[|b| - 1] == 0 && forall j :: 0 <= j < |b| - 1 ==> b[j] != 0
    ensures r.Some? ==> r.value == b[..|b| - 1]
  {
    match FirstNul(b)
    case Some(k) => if k == |b| - 1 then Some(b[..k]) else None
    case None => None
  }

  /** `CStr::from_bytes_until_nul`: the bytes before the first NUL; an error when
      there is none. */
  function FromBytesUntilNul(b: seq<byte>): (r: Option<seq<byte>>)
    ensures r.None? <==> forall j :: 0 <= j < |b| ==> b[j] != 0
    ensures r.Some? ==> r.value == b[..FirstNul(b).value]
  {
    match FirstNul(b)
    case Some(k) => Some(b[..k])
    case None => None
  }

  /** The first NUL of `p + [0] + t`, when `p` has none, is the one after `p`. */
  lemma FirstNulAfter(p: seq<byte>, t: seq<byte>)
    requires forall j :: 0 <= j < |p| ==> p[j] != 0
    ensures FirstNul(p + [0] + t) == Some(|p|)
    ensures (p + [0] + t)[..|p|] == p
  {
    var b := p + [0] + t;
    assert b[|p|] == 0;
    assert forall j :: 0 <= j < |p| ==> b[j] == p[j];
  }

  /** Cutting just after the first NUL gives bytes that `from_bytes_with_nul` accepts. */
  lemma WithNulAccepts(b: seq<byte>)
    requires FirstNul(b).Some?
    ensures FromBytesWithNul(b[..FirstNul(b).value + 1]) == Some(b[..FirstNul(b).value])
  {
    var k := FirstNul(b).value;
    var c := b[..k + 1];
    assert forall j :: 0 <= j <= k ==> c[j] == b[j];
    assert c[..|c| - 1] == b[..k];
  }
}
