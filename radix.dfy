/** Integer text in a radix: the standard library's `from_str_radix` for unsigned
    types (used on `/proc` entry names, `maps` lines and dump file names) and the
    `Display` and lower-hex formatting used in error values. */
module Radix {
  import opened Wrappers

  /** `char::to_digit(radix)`: the value of an ASCII digit or letter, when below the radix. */
  function DigitValue(c: char, radix: nat): (d: Option<nat>)
    requires 2 <= radix <= 36
    ensures d.Some? ==> d.value < radix
    ensures d.Some? <==>
              || ('0' <= c <= '9' && c as int - '0' as int < radix)
              || ('a' <= c <= 'z' && c as int - 'a' as int + 10 < radix)
              || ('A' <= c <= 'Z' && c as int - 'A' as int + 10 < radix)
  {
    var v := if '0' <= c <= '9' then c as int - '0' as int
             else if 'a' <= c <= 'z' then c as int - 'a' as int + 10
             else if 'A' <= c <= 'Z' then c as int - 'A' as int + 10
             else 36;
    if v < radix then Some(v) else None
  }

  /** The value of a string of digits, most significant first; None if some character is not a digit. */
  function DigitsValue(s: string, radix: nat): (r: Option<nat>)
    requires 2 <= radix <= 36
    ensures r.Some? <==> forall i :: 0 <= i < |s| ==> DigitValue(s[i], radix).Some?
  {
    if s == [] then Some(0)
    else
      var init := s[..|s| - 1];
      assert forall i :: 0 <= i < |init| ==> init[i] == s[i];
      match (DigitsValue(init, radix), DigitValue(s[|s| - 1], radix))
      case (Some(h), Some(d)) => Some(Append(h, radix, d))
      case _ => None
  }

  /** The value of digits `h` followed by one more digit `d`. */
  function Append(h: nat, radix: nat, d: nat): nat
  {
    MulNat(h, radix);
    h * radix + d
  }

  lemma MulNat(a: nat, b: nat)
    ensures a * b >= 0
  {
  }

  /** `from_str_radix` for an unsigned type whose values are those below `bound`: an
      optional leading `+`, then at least one digit of the radix, and no overflow.
      A leading `-` is an invalid digit for an unsigned type. */
  function ParseUnsigned(s: string, radix: nat, bound: nat): (r: Option<nat>)
    requires 2 <= radix <= 36
    ensures r.Some? ==> r.value < bound
    ensures r.Some? ==> s != [] && s != "+"
    ensures r.Some? ==> forall i :: 0 <= i < |s| ==> s[i] != '-'
  {
    var digits := if |s| > 0 && s[0] == '+' then s[1..] else s;
    if digits == [] then None
    else
      match DigitsValue(digits, radix)
      case Some(v) => if v < bound then Some(v) else None
      case None => None
  }

  function DigitChar(d: nat): (c: char)
    requires d < 36
  {
    if d < 10 then ('0' as int + d) as char else ('a' as int + d - 10) as char
  }

  lemma DigitCharValue(d: nat, radix: nat)
    requires 2 <= radix <= 36 && d < radix
    ensures DigitValue(DigitChar(d), radix) == Some(d)
  {
  }

  /** Euclidean division by one of the two radixes the source prints in. */
  lemma DivMod(n: nat, radix: nat)
    requires radix == 10 || radix == 16
    ensures n == n / radix * radix + n % radix && 0 <= n % radix < radix
    ensures n >= radix ==> 0 < n / radix < n
  {
    if radix == 10 {
    } else {
    }
  }

  /** `n` written in the radix with lower-case digits and no leading zeros. */
  function Format(n: nat, radix: nat): (s: string)
    requires radix == 10 || radix == 16
    ensures |s| >= 1
    ensures forall i :: 0 <= i < |s| ==> DigitValue(s[i], radix).Some?
    decreases n
  {
    DivMod(n, radix);
    if n < radix then
      DigitCharValue(n, radix);
      [DigitChar(n)]
    else
      DigitCharValue(n % radix, radix);
      Format(n / radix, radix) + [DigitChar(n % radix)]
  }

  /** `x.to_string()` of an unsigned integer. */
  function Decimal(n: nat): string { Format(n, 10) }

  /** Lower-hex `format!` of `n`. */
  function LowerHex(n: nat): string { Format(n, 16) }

  lemma {:induction false} DigitsValueFormat(n: nat, radix: nat)
    requires radix == 10 || radix == 16
    ensures DigitsValue(Format(n, radix), radix) == Some(n)
    decreases n
  {
    DivMod(n, radix);
    if n < radix {
      DigitCharValue(n, radix);
      assert Format(n, radix)[..0] == [];
    } else {
      var s := Format(n, radix);
      DigitsValueFormat(n / radix, radix);
      DigitCharValue(n % radix, radix);
      assert s[..|s| - 1] == Format(n / radix, radix);
      assert DigitValue(s[|s| - 1], radix) == Some(n % radix);
    }
  }

  /** Formatting and parsing are inverse: the text the formatter produces parses back to the same number. */
  lemma ParseFormat(n: nat, radix: nat, bound: nat)
    requires radix == 10 || radix == 16
    requires n < bound
    ensures ParseUnsigned(Format(n, radix), radix, bound) == Some(n)
  {
    DigitsValueFormat(n, radix);
    assert DigitValue(Format(n, radix)[0], radix).Some?;
  }
}
