/** Hexadecimal text and bytes.

    The helper turns a stack value into bytes with a hex-decoding routine
    of its helper library whose code is not part of this model. This
    module fixes what that routine must do on well-formed input (an even
    number of hex digits, either case, two digits per byte, high nibble
    first) and nothing more: the token helper takes the decoder as a
    parameter, and its lemmas only ask it to agree with `Decode` on the
    value at hand.
 */
module Hex {
  import opened Bytes

  predicate IsHexDigit(c: char) {
    ('0' <= c <= '9') || ('a' <= c <= 'f') || ('A' <= c <= 'F')
  }

  predicate IsLowerHexDigit(c: char) {
    ('0' <= c <= '9') || ('a' <= c <= 'f')
  }

  /** Well-formed hex: an even number of hex digits. */
  predicate IsHex(s: string) {
    |s| % 2 == 0 && forall i :: 0 <= i < |s| ==> IsHexDigit(s[i])
  }

  /** Well-formed hex written with lower-case digits only. */
  predicate IsLowerHex(s: string) {
    |s| % 2 == 0 && forall i :: 0 <= i < |s| ==> IsLowerHexDigit(s[i])
  }

  function NibbleValue(c: char): (v: nat)
    requires IsHexDigit(c)
    ensures v < 16
  {
    if '0' <= c <= '9' then c as int - '0' as int
    else if 'a' <= c <= 'f' then c as int - 'a' as int + 10
    else c as int - 'A' as int + 10
  }

  /** The lower-case digit of a nibble. */
  function NibbleDigit(v: nat): (c: char)
    requires v < 16
    ensures IsLowerHexDigit(c)
  {
    "0123456789abcdef"[v]
  }

  /** The bytes that well-formed hex denotes. */
  function Decode(s: string): (b: seq<byte>)
    requires IsHex(s)
    ensures |b| == |s| / 2
    decreases |s|
  {
    if |s| == 0 then []
    else [16 * NibbleValue(s[0]) + NibbleValue(s[1])] + Decode(s[2..])
  }

  /** Lower-case hex of a byte sequence, as the node writes stack values. */
  function Encode(b: seq<byte>): (s: string)
    ensures IsLowerHex(s) && |s| == 2 * |b|
  {
    if |b| == 0 then ""
    else [NibbleDigit(b[0] / 16), NibbleDigit(b[0] % 16)] + Encode(b[1..])
  }

  lemma NibbleRoundTrip(v: nat)
    requires v < 16
    ensures NibbleValue(NibbleDigit(v)) == v
  {
  }

  lemma DigitRoundTrip(c: char)
    requires IsLowerHexDigit(c)
    ensures NibbleDigit(NibbleValue(c)) == c
  {
  }

  lemma LowerHexIsHex(s: string)
    requires IsLowerHex(s)
    ensures IsHex(s)
  {
  }

  /** Decoding undoes encoding, for every byte sequence. */
  lemma {:induction false} DecodeEncode(b: seq<byte>)
    ensures IsHex(Encode(b)) && Decode(Encode(b)) == b
  {
    var s := Encode(b);
    LowerHexIsHex(s);
    if |b| > 0 {
      NibbleRoundTrip(b[0] / 16);
      NibbleRoundTrip(b[0] % 16);
      assert s[2..] == Encode(b[1..]);
      DecodeEncode(b[1..]);
    }
  }

  /** Encoding undoes decoding, for lower-case hex; upper-case digits decode
      to the same bytes but are re-encoded in lower case. */
  lemma {:induction false} EncodeDecode(s: string)
    requires IsLowerHex(s)
    ensures IsHex(s) && Encode(Decode(s)) == s
    decreases |s|
  {
    LowerHexIsHex(s);
    if |s| > 0 {
      var hi, lo := NibbleValue(s[0]), NibbleValue(s[1]);
      var v := 16 * hi + lo;
      assert v / 16 == hi && v % 16 == lo;
      DigitRoundTrip(s[0]);
      DigitRoundTrip(s[1]);
      assert IsLowerHex(s[2..]) by {
        forall i | 0 <= i < |s[2..]| ensures IsLowerHexDigit(s[2..][i]) {
          assert s[2..][i] == s[i + 2];
        }
      }
      EncodeDecode(s[2..]);
      assert Decode(s) == [v] + Decode(s[2..]);
      assert Encode(Decode(s)) == [NibbleDigit(hi), NibbleDigit(lo)] + Encode(Decode(s[2..]));
    }
  }
}
