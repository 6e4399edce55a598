/**
 * Unpadded base64url, the `URL_SAFE_NO_PAD` engine of the `base64` crate
 * (the alphabet of section 5 of RFC 4648, with the trailing `=` padding
 * left off as section 3.2 of RFC 4648 allows).
 */
module Base64Url {
  import opened Text

  /** The URL-safe alphabet: `A`-`Z`, `a`-`z`, `0`-`9`, then `-` and `_`. */
  function SextetChar(v: nat): (c: char)
    requires v < 64
  {
    if v < 26 then (v + 'A' as int) as char
    else if v < 52 then (v - 26 + 'a' as int) as char
    else if v < 62 then (v - 52 + '0' as int) as char
    else if v == 62 then '-'
    else '_'
  }

  predicate IsAlphabetChar(c: char) {
    ('A' <= c <= 'Z') || ('a' <= c <= 'z') || ('0' <= c <= '9') || c == '-' || c == '_'
  }

  predicate InAlphabet(s: string) {
    forall i :: 0 <= i < |s| ==> IsAlphabetChar(s[i])
  }

  /**
   * Encodes each group of three bytes as four characters; a final group of
   * one or two bytes becomes two or three characters. The length is
   * therefore `ceil(4n / 3)` for `n` bytes.
   */
  function Encode(bytes: seq<Byte>): (r: string)
    ensures |r| == (4 * |bytes| + 2) / 3
    ensures InAlphabet(r)
    decreases |bytes|
  {
    if |bytes| == 0 then ""
    else if |bytes| == 1 then
      [SextetChar(bytes[0] / 4), SextetChar((bytes[0] % 4) * 16)]
    else if |bytes| == 2 then
      [SextetChar(bytes[0] / 4), SextetChar((bytes[0] % 4) * 16 + bytes[1] / 16), SextetChar((bytes[1] % 16) * 4)]
    else
      EncodeGroup(bytes[0], bytes[1], bytes[2]) + Encode(bytes[3..])
  }

  /** Three bytes as four characters of six bits each. */
  function EncodeGroup(b0: Byte, b1: Byte, b2: Byte): (r: string)
    ensures |r| == 4 && InAlphabet(r)
  {
    [SextetChar(b0 / 4), SextetChar((b0 % 4) * 16 + b1 / 16),
     SextetChar((b1 % 16) * 4 + b2 / 64), SextetChar(b2 % 64)]
  }

  /** The position of an alphabet character. */
  function SextetOf(c: char): (v: nat)
    requires IsAlphabetChar(c)
    ensures v < 64 && SextetChar(v) == c
  {
    if 'A' <= c <= 'Z' then c as int - 'A' as int
    else if 'a' <= c <= 'z' then c as int - 'a' as int + 26
    else if '0' <= c <= '9' then c as int - '0' as int + 52
    else if c == '-' then 62
    else 63
  }

  /** Decoding, the inverse of `Encode` on every string `Encode` produces. */
  function Decode(s: string): (r: seq<Byte>)
    requires InAlphabet(s)
    decreases |s|
  {
    if |s| < 2 then []
    else if |s| == 2 then
      [SextetOf(s[0]) * 4 + SextetOf(s[1]) / 16]
    else if |s| == 3 then
      [SextetOf(s[0]) * 4 + SextetOf(s[1]) / 16, (SextetOf(s[1]) % 16) * 16 + SextetOf(s[2]) / 4]
    else
      [SextetOf(s[0]) * 4 + SextetOf(s[1]) / 16,
       (SextetOf(s[1]) % 16) * 16 + SextetOf(s[2]) / 4,
       (SextetOf(s[2]) % 4) * 64 + SextetOf(s[3])]
      + Decode(s[4..])
  }

  lemma SextetOfChar(v: nat)
    requires v < 64
    ensures SextetOf(SextetChar(v)) == v
  {
  }

  /** The arithmetic of one full group: three bytes split into four sextets and joined again. */
  lemma GroupArithmetic(b0: Byte, b1: Byte, b2: Byte)
    ensures (b0 / 4) * 4 + ((b0 % 4) * 16 + b1 / 16) / 16 == b0
    ensures (((b0 % 4) * 16 + b1 / 16) % 16) * 16 + ((b1 % 16) * 4 + b2 / 64) / 4 == b1
    ensures (((b1 % 16) * 4 + b2 / 64) % 4) * 64 + b2 % 64 == b2
  {
  }

  /** Decoding takes four characters at a time off the front. */
  lemma DecodeFour(group: string, rest: string)
    requires |group| == 4 && InAlphabet(group) && InAlphabet(rest)
    ensures InAlphabet(group + rest)
    ensures Decode(group + rest)
            == [SextetOf(group[0]) * 4 + SextetOf(group[1]) / 16,
                (SextetOf(group[1]) % 16) * 16 + SextetOf(group[2]) / 4,
                (SextetOf(group[2]) % 4) * 64 + SextetOf(group[3])]
               + Decode(rest)
  {
    var s := group + rest;
    assert forall i :: 0 <= i < |s| ==> IsAlphabetChar(s[i]) by {
      forall i | 0 <= i < |s| ensures IsAlphabetChar(s[i]) {
        if i >= 4 { assert s[i] == rest[i - 4]; }
      }
    }
    assert s[4..] == rest;
  }

  /** A full group of three bytes decodes back from its four characters. */
  lemma DecodeEncodeGroup(b0: Byte, b1: Byte, b2: Byte, rest: string)
    requires InAlphabet(rest)
    ensures InAlphabet(EncodeGroup(b0, b1, b2) + rest)
    ensures Decode(EncodeGroup(b0, b1, b2) + rest) == [b0, b1, b2] + Decode(rest)
  {
    var group := EncodeGroup(b0, b1, b2);
    SextetOfChar(b0 / 4);
    SextetOfChar((b0 % 4) * 16 + b1 / 16);
    SextetOfChar((b1 % 16) * 4 + b2 / 64);
    SextetOfChar(b2 % 64);
    DecodeFour(group, rest);
    GroupArithmetic(b0, b1, b2);
  }

  /** A final single byte comes back from its two characters. */
  lemma DecodeEncodeOne(b0: Byte)
    ensures Decode(Encode([b0])) == [b0]
  {
    SextetOfChar(b0 / 4);
    SextetOfChar((b0 % 4) * 16);
    GroupArithmetic(b0, 0, 0);
  }

  /** A final pair of bytes comes back from its three characters. */
  lemma DecodeEncodeTwo(b0: Byte, b1: Byte)
    ensures Decode(Encode([b0, b1])) == [b0, b1]
  {
    SextetOfChar(b0 / 4);
    SextetOfChar((b0 % 4) * 16 + b1 / 16);
    SextetOfChar((b1 % 16) * 4);
    GroupArithmetic(b0, b1, 0);
  }

  /** Nothing is lost by encoding: decoding the text gives back the bytes. */
  lemma {:induction false} DecodeEncode(bytes: seq<Byte>)
    ensures Decode(Encode(bytes)) == bytes
    decreases |bytes|
  {
    if |bytes| < 3 {
      DecodeEncodeShort(bytes);
    } else {
      var rest := Encode(bytes[3..]);
      assert Encode(bytes) == EncodeGroup(bytes[0], bytes[1], bytes[2]) + rest;
      DecodeEncodeGroup(bytes[0], bytes[1], bytes[2], rest);
      DecodeEncode(bytes[3..]);
      assert bytes == [bytes[0], bytes[1], bytes[2]] + bytes[3..];
    }
  }

  /** The final group of fewer than three bytes comes back too. */
  lemma DecodeEncodeShort(bytes: seq<Byte>)
    requires |bytes| < 3
    ensures Decode(Encode(bytes)) == bytes
  {
    if |bytes| == 1 {
      DecodeEncodeOne(bytes[0]);
      assert bytes == [bytes[0]];
    } else if |bytes| == 2 {
      DecodeEncodeTwo(bytes[0], bytes[1]);
      assert bytes == [bytes[0], bytes[1]];
    }
  }

  /** Thirty-two bytes encode as forty-three characters. */
  lemma EncodedLength32(bytes: seq<Byte>)
    requires |bytes| == 32
    ensures |Encode(bytes)| == 43
  {
  }
}
