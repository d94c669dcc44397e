/**
 * `bigIntReplacer` / `bigIntReviver` of `getReactNativeBundle.ts`: the
 * `JSON.stringify` replacer writes a bigint as the string
 * `__BigInt__:<digits>n`, and the `JSON.parse` reviver turns such strings
 * back into bigints. The property name both receive is ignored.
 */
module BigIntJson {
  import opened JsStrings

  /** A JSON value as the two callbacks see it: a bigint, a string, or any other value (opaque). */
  datatype JsValue = BigInt(n: int) | Str(s: string) | Other(id: nat)

  const Marker: string := "__BigInt__:"

  /** `value.toString()` of a bigint: a minus sign before the decimal numeral of a negative value. */
  function BigIntToString(n: int): (s: string)
    ensures n >= 0 ==> s == NatToDecimal(n)
    ensures n < 0 ==> s == "-" + NatToDecimal(-n)
  {
    if n < 0 then "-" + NatToDecimal(-n) else NatToDecimal(n)
  }

  /** `bigIntReplacer(_key, value)`. */
  function BigIntReplacer(key: string, value: JsValue): (r: JsValue)
    ensures value.BigInt? ==> r == Str(Marker + BigIntToString(value.n) + "n")
    ensures !value.BigInt? ==> r == value
  {
    if value.BigInt? then Str(Marker + BigIntToString(value.n) + "n") else value
  }

  /** `/^__BigInt__:\d+n$/.test(s)`. */
  predicate IsEncodedBigInt(s: string)
  {
    |s| >= |Marker| + 2 && s[..|Marker|] == Marker && s[|s| - 1] == 'n' && AllDigits(s[|Marker|..|s| - 1])
  }

  /** `bigIntReviver(_key, value)`: the digits between the 11-character marker and the final `n`, read as a bigint. */
  function BigIntReviver(key: string, value: JsValue): (r: JsValue)
    ensures value.Str? && IsEncodedBigInt(value.s) ==> r.BigInt? && r.n >= 0
    ensures !(value.Str? && IsEncodedBigInt(value.s)) ==> r == value
  {
    if value.Str? && IsEncodedBigInt(value.s) then BigInt(DecimalToNat(value.s[11..|value.s| - 1])) else value
  }

  /** A non-negative bigint survives the round trip. */
  lemma NonNegativeRoundTrip(key: string, n: int)
    requires n >= 0
    ensures BigIntReviver(key, BigIntReplacer(key, BigInt(n))) == BigInt(n)
  {
    EncodedParts(NatToDecimal(n));
    DecimalRoundTrip(n);
  }

  /** Every value that is not a bigint and not a string passes through both unchanged. */
  lemma OtherValuesRoundTrip(key: string, value: JsValue)
    requires value.Other?
    ensures BigIntReplacer(key, value) == value && BigIntReviver(key, value) == value
  {
  }

  /** A negative bigint is written with a minus sign, which `\d+` rejects: it comes back as a string. */
  lemma NegativeStaysString(key: string, n: int)
    requires n < 0
    ensures BigIntReplacer(key, BigInt(n)).Str?
    ensures BigIntReviver(key, BigIntReplacer(key, BigInt(n))) == BigIntReplacer(key, BigInt(n))
  {
    var t := BigIntToString(n);
    var s := Marker + t + "n";
    assert t[0] == '-';
    assert s[|Marker|..|s| - 1][0] == t[0];
  }

  /**
   * A string that merely looks like an encoding is not distinguished from
   * one: the replacer leaves it alone and the reviver turns it into a bigint.
   */
  lemma LookalikeStringRevived(key: string, digits: string)
    requires |digits| >= 1 && AllDigits(digits)
    ensures var s := Str(Marker + digits + "n");
            && BigIntReplacer(key, s) == s
            && BigIntReviver(key, BigIntReplacer(key, s)) == BigInt(DecimalToNat(digits))
  {
    EncodedParts(digits);
  }

  /** Where the marker, the digits and the final `n` sit in an encoding. */
  lemma EncodedParts(digits: string)
    ensures var s := Marker + digits + "n";
            && |Marker| == 11 && |s| == |digits| + 12
            && s[..|Marker|] == Marker && s[|Marker|..|s| - 1] == digits && s[|s| - 1] == 'n'
  {
    var s := Marker + digits + "n";
    assert s[..|Marker|] == Marker;
    assert s[|Marker|..|s| - 1] == digits;
  }
}
