/** Node's `buffer.toString("hex")`: two lower-case hexadecimal digits per
    byte, most significant nibble first. The password-reset token is the
    hex encoding of 32 random bytes. */
module Hex {
  import opened Js

  newtype Byte = b: int | 0 <= b < 256

  /** The digit for a nibble value `0..15`. */
  function Digit(v: nat): (c: char)
    requires v < 16
    ensures IsHexDigit(c)
  {
    if v < 10 then ('0' as int + v) as char else ('a' as int + v - 10) as char
  }

  predicate IsHexDigit(c: char) {
    '0' <= c <= '9' || 'a' <= c <= 'f'
  }

  /** The nibble value of a lower-case hexadecimal digit. */
  function DigitValue(c: char): (v: nat)
    requires IsHexDigit(c)
    ensures v < 16
  {
    if c <= '9' then c as int - '0' as int else c as int - 'a' as int + 10
  }

  /** `Buffer.from(bytes).toString("hex")`. */
  function Encode(bytes: seq<Byte>): (s: string)
    ensures |s| == 2 * |bytes|
    ensures forall k :: 0 <= k < |s| ==> IsHexDigit(s[k])
  {
    if bytes == [] then ""
    else
      var b := bytes[0] as int;
      [Digit(b / 16), Digit(b % 16)] + Encode(bytes[1..])
  }

  /** The inverse of `Encode`: `None` for an odd length or a character
      that is not a lower-case hexadecimal digit. */
  function Decode(s: string): (r: Option<seq<Byte>>)
    ensures r.Some? ==> |s| == 2 * |r.value|
    decreases |s|
  {
    if s == [] then Some([])
    else if |s| == 1 || !IsHexDigit(s[0]) || !IsHexDigit(s[1]) then None
    else
      match Decode(s[2..])
      case None => None
      case Some(rest) => Some([(DigitValue(s[0]) * 16 + DigitValue(s[1])) as Byte] + rest)
  }

  lemma DigitRoundTrip(v: nat)
    requires v < 16
    ensures DigitValue(Digit(v)) == v
  {
  }

  /** One step of decoding: a pair of digits and the rest. */
  lemma DecodePair(hi: nat, lo: nat, rest: string)
    requires hi < 16 && lo < 16
    ensures Decode([Digit(hi), Digit(lo)] + rest)
            == match Decode(rest)
               case None => None
               case Some(r) => Some([(hi * 16 + lo) as Byte] + r)
  {
    var s := [Digit(hi), Digit(lo)] + rest;
    assert s[2..] == rest;
    DigitRoundTrip(hi);
    DigitRoundTrip(lo);
  }

  /** Decoding an encoding gives the bytes back, so distinct byte strings
      give distinct tokens. */
  lemma {:induction false} DecodeEncode(bytes: seq<Byte>)
    ensures Decode(Encode(bytes)) == Some(bytes)
  {
    if bytes != [] {
      var b := bytes[0] as int;
      DecodeEncode(bytes[1..]);
      DecodePair(b / 16, b % 16, Encode(bytes[1..]));
      assert Encode(bytes) == [Digit(b / 16), Digit(b % 16)] + Encode(bytes[1..]);
      assert bytes == [bytes[0]] + bytes[1..];
    }
  }

  /** Encoding is injective. */
  lemma EncodeInjective(a: seq<Byte>, b: seq<Byte>)
    requires Encode(a) == Encode(b)
    ensures a == b
  {
    DecodeEncode(a);
    DecodeEncode(b);
  }
}
