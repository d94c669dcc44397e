/**
 * `encodeURIComponent`, as the href builder uses it: every character
 * outside `A-Z a-z 0-9 - _ . ! ~ * ' ( )` is replaced by the percent-encoded
 * bytes (upper-case hexadecimal, section 2.1 of RFC 3986) of its UTF-8
 * encoding. Characters here are Unicode scalar values, so the lone
 * surrogates on which JavaScript throws `URIError` do not arise.
 */
module UriComponent {

  /** The characters `encodeURIComponent` leaves as they are. */
  predicate IsUnreserved(c: char)
  {
    || 'A' <= c <= 'Z' || 'a' <= c <= 'z' || '0' <= c <= '9'
    || c == '-' || c == '_' || c == '.' || c == '!' || c == '~' || c == '*' || c == '\'' || c == '(' || c == ')'
  }

  predicate IsUpperHexDigit(c: char) { '0' <= c <= '9' || 'A' <= c <= 'F' }

  /** What an encoded string is made of: unreserved characters, `%` and hexadecimal digits. */
  predicate IsEncodedChar(c: char) { IsUnreserved(c) || c == '%' || IsUpperHexDigit(c) }

  /** The UTF-8 bytes of a character. */
  function Utf8(c: char): (bytes: seq<nat>)
    ensures 1 <= |bytes| <= 4
    ensures forall i :: 0 <= i < |bytes| ==> bytes[i] < 256
    ensures (c as int) < 0x80 <==> |bytes| == 1
  {
    var n := c as int;
    if n < 0x80 then [n]
    else if n < 0x800 then [0xC0 + n / 64, 0x80 + n % 64]
    else if n < 0x10000 then [0xE0 + n / 4096, 0x80 + (n / 64) % 64, 0x80 + n % 64]
    else [0xF0 + n / 262144, 0x80 + (n / 4096) % 64, 0x80 + (n / 64) % 64, 0x80 + n % 64]
  }

  function HexDigit(d: nat): (c: char)
    requires d < 16
    ensures IsUpperHexDigit(c)
  {
    if d < 10 then (48 + d) as char else (55 + d) as char
  }

  /** `%XY` for one byte. */
  function PercentByte(b: nat): (s: string)
    requires b < 256
    ensures |s| == 3 && s[0] == '%'
    ensures forall i :: 0 <= i < |s| ==> IsEncodedChar(s[i])
  {
    ['%', HexDigit(b / 16), HexDigit(b % 16)]
  }

  function PercentBytes(bytes: seq<nat>): (s: string)
    requires forall i :: 0 <= i < |bytes| ==> bytes[i] < 256
    ensures |s| == 3 * |bytes|
    ensures forall i :: 0 <= i < |s| ==> IsEncodedChar(s[i])
  {
    if bytes == [] then [] else PercentByte(bytes[0]) + PercentBytes(bytes[1..])
  }

  function EncodeChar(c: char): (s: string)
    ensures IsUnreserved(c) ==> s == [c]
    ensures !IsUnreserved(c) ==> |s| >= 3 && s[0] == '%'
    ensures forall i :: 0 <= i < |s| ==> IsEncodedChar(s[i])
  {
    if IsUnreserved(c) then [c] else PercentBytes(Utf8(c))
  }

  /** `f` applied to each character of `s`, the results concatenated. */
  function ConcatMap(f: char -> string, s: string): string
  {
    if s == [] then [] else f(s[0]) + ConcatMap(f, s[1..])
  }

  lemma {:induction false} ConcatMapAppend(f: char -> string, a: string, b: string)
    ensures ConcatMap(f, a + b) == ConcatMap(f, a) + ConcatMap(f, b)
  {
    if a != [] {
      assert (a + b)[0] == a[0] && (a + b)[1..] == a[1..] + b;
      ConcatMapAppend(f, a[1..], b);
    } else {
      assert a + b == b;
    }
  }

  /** `encodeURIComponent(s)`. */
  function Encode(s: string): string
  {
    ConcatMap(EncodeChar, s)
  }

  /** An encoding is made of unreserved characters, `%` and hexadecimal digits. */
  lemma {:induction false} EncodedChars(s: string)
    ensures forall i :: 0 <= i < |Encode(s)| ==> IsEncodedChar(Encode(s)[i])
  {
    if s != [] {
      EncodedChars(s[1..]);
      var head := EncodeChar(s[0]);
      var t := Encode(s);
      forall i | 0 <= i < |t| ensures IsEncodedChar(t[i]) {
        if i < |head| {
          assert t[i] == head[i];
        } else {
          assert t[i] == Encode(s[1..])[i - |head|];
        }
      }
    }
  }

  predicate AllUnreserved(s: string) { forall i :: 0 <= i < |s| ==> IsUnreserved(s[i]) }

  /** A string of unreserved characters is its own encoding. */
  lemma {:induction false} UnreservedUnchanged(s: string)
    requires AllUnreserved(s)
    ensures Encode(s) == s
  {
    if s != [] {
      UnreservedUnchanged(s[1..]);
      assert s == [s[0]] + s[1..];
    }
  }

  /** Encoding works character by character: the encoding of a concatenation is the concatenation of the encodings. */
  lemma EncodeConcat(a: string, b: string)
    ensures Encode(a + b) == Encode(a) + Encode(b)
  {
    ConcatMapAppend(EncodeChar, a, b);
  }

  /** No character the href builder treats specially survives encoding. */
  lemma EncodedHasNoDelimiters(s: string)
    ensures var t := Encode(s);
            forall i :: 0 <= i < |t| ==> t[i] !in {'[', ']', '/', '?', '&', '=', '$', ','}
  {
    var t := Encode(s);
    EncodedChars(s);
    forall i | 0 <= i < |t| ensures t[i] !in {'[', ']', '/', '?', '&', '=', '$', ','} {
      assert IsEncodedChar(t[i]);
    }
  }
}
