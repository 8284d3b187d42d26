/** Bytes and unsigned integers, and the little-endian reading the helper
    performs with Go's `binary.LittleEndian.Uint64` after zero padding.
 */
module Bytes {

  type byte = x: int | 0 <= x < 0x100
  type u8 = byte
  type u64 = x: int | 0 <= x < 0x1_0000_0000_0000_0000

  /** 256 to the power n: the number of distinct values of n bytes. */
  function Pow256(n: nat): (p: nat)
    ensures p > 0
  {
    if n == 0 then 1 else 0x100 * Pow256(n - 1)
  }

  /** A run of k zero bytes. */
  function Zeros(k: nat): (z: seq<byte>)
    ensures |z| == k
    ensures forall i :: 0 <= i < k ==> z[i] == 0
  {
    if k == 0 then [] else [0] + Zeros(k - 1)
  }

  /** The value of a byte sequence read least significant byte first:
      the sum of b[i] * 256^i. This is the reference reading; the Go
      library's fixed eight-byte formula is `Uint64LE` below. */
  function LeValue(b: seq<byte>): nat
  {
    if |b| == 0 then 0 else b[0] + 0x100 * LeValue(b[1..])
  }

  /** The helper's padding loop: append one zero byte at a time, at the END
      of the sequence, for as long as the length is below n. */
  function PadRight(b: seq<byte>, n: nat): (r: seq<byte>)
    ensures |r| == if |b| < n then n else |b|
    ensures r[..|b|] == b
    ensures forall i :: |b| <= i < |r| ==> r[i] == 0
    decreases n - |b|
  {
    if |b| < n then PadRight(b + [0], n) else b
  }

  /** `binary.LittleEndian.Uint64`: the first eight bytes combined with
      b[0] least significant; any further bytes are not read. */
  function Uint64LE(b: seq<byte>): (r: u64)
    requires |b| >= 8
    ensures r == LeValue(b[..8])
  {
    LeValueOfEightBytes(b[..8]);
    var v: int :=
      b[0] as int
      + b[1] as int * 0x100
      + b[2] as int * 0x1_0000
      + b[3] as int * 0x100_0000
      + b[4] as int * 0x1_0000_0000
      + b[5] as int * 0x100_0000_0000
      + b[6] as int * 0x1_0000_0000_0000
      + b[7] as int * 0x100_0000_0000_0000;
    v
  }

  /** The helper's integer decoding: pad to eight bytes, then read them. */
  function ReadUint64(b: seq<byte>): (r: u64)
    ensures |b| <= 8 ==> r == LeValue(b) && r < Pow256(|b|)
    ensures |b| > 8 ==> r == LeValue(b[..8])
  {
    var padded := PadRight(b, 8);
    if |b| <= 8 then
      PaddedValue(b, padded);
      LeValueBound(b);
      Uint64LE(padded)
    else
      Uint64LE(padded)
  }

  /** The minimal unsigned little-endian bytes of n (empty for zero): the
      shape in which the node returns a small quantity, trimmed of high
      zero bytes. */
  function LittleEndianBytes(n: nat): (b: seq<byte>)
    ensures |b| == 0 || b[|b| - 1] != 0
  {
    if n == 0 then [] else [n % 0x100] + LittleEndianBytes(n / 0x100)
  }

  lemma {:induction false} LeValueBound(b: seq<byte>)
    ensures LeValue(b) < Pow256(|b|)
  {
    if |b| > 0 {
      LeValueBound(b[1..]);
      assert LeValue(b[1..]) + 1 <= Pow256(|b| - 1);
      assert 0x100 * (LeValue(b[1..]) + 1) <= 0x100 * Pow256(|b| - 1);
    }
  }

  lemma {:induction false} LeValueZeros(k: nat)
    ensures LeValue(Zeros(k)) == 0
  {
    if k > 0 {
      assert Zeros(k)[1..] == Zeros(k - 1);
      LeValueZeros(k - 1);
    }
  }

  /** Appending zero bytes at the end never changes the little-endian value. */
  lemma {:induction false} LeValueZeroPad(b: seq<byte>, k: nat)
    ensures LeValue(b + Zeros(k)) == LeValue(b)
  {
    if |b| == 0 {
      assert b + Zeros(k) == Zeros(k);
      LeValueZeros(k);
    } else {
      assert (b + Zeros(k))[1..] == b[1..] + Zeros(k);
      LeValueZeroPad(b[1..], k);
    }
  }

  /** Padding a sequence of at most eight bytes keeps its value. */
  lemma PaddedValue(b: seq<byte>, padded: seq<byte>)
    requires |b| <= 8 && padded == PadRight(b, 8)
    ensures padded[..8] == padded
    ensures LeValue(padded) == LeValue(b)
  {
    assert padded == b + Zeros(8 - |b|);
    LeValueZeroPad(b, 8 - |b|);
  }

  /** The reference reading of eight bytes, written out. */
  lemma LeValueOfEightBytes(s: seq<byte>)
    requires |s| == 8
    ensures LeValue(s) ==
      s[0] as int + s[1] as int * 0x100 + s[2] as int * 0x1_0000 + s[3] as int * 0x100_0000
      + s[4] as int * 0x1_0000_0000 + s[5] as int * 0x100_0000_0000
      + s[6] as int * 0x1_0000_0000_0000 + s[7] as int * 0x100_0000_0000_0000
  {
    var t7 := LeValue(s[7..]);
    assert s[7..][1..] == [];
    assert LeValue(s[7..][1..]) == 0;
    assert t7 == s[7] as int;
    var t6 := LeValue(s[6..]);
    assert s[6..][1..] == s[7..];
    assert t6 == s[6] as int + 0x100 * t7;
    var t5 := LeValue(s[5..]);
    assert s[5..][1..] == s[6..];
    assert t5 == s[5] as int + 0x100 * t6;
    var t4 := LeValue(s[4..]);
    assert s[4..][1..] == s[5..];
    assert t4 == s[4] as int + 0x100 * t5;
    var t3 := LeValue(s[3..]);
    assert s[3..][1..] == s[4..];
    assert t3 == s[3] as int + 0x100 * t4;
    var t2 := LeValue(s[2..]);
    assert s[2..][1..] == s[3..];
    assert t2 == s[2] as int + 0x100 * t3;
    var t1 := LeValue(s[1..]);
    assert s[1..][1..] == s[2..];
    assert t1 == s[1] as int + 0x100 * t2;
    assert LeValue(s) == s[0] as int + 0x100 * t1;
  }

  /** Reading back the little-endian bytes of n yields n. */
  lemma {:induction false} LittleEndianBytesValue(n: nat)
    ensures LeValue(LittleEndianBytes(n)) == n
  {
    if n > 0 {
      LittleEndianBytesValue(n / 0x100);
    }
  }

  /** A value below 256^k needs at most k bytes. */
  lemma {:induction false} LittleEndianBytesLength(n: nat, k: nat)
    requires n < Pow256(k)
    ensures |LittleEndianBytes(n)| <= k
  {
    if n > 0 {
      assert k > 0;
      LittleEndianBytesLength(n / 0x100, k - 1);
    }
  }

  /** Round trip of the integer decoding: the minimal little-endian bytes of
      any 64-bit value, followed by any number of zero bytes, read back as
      that value. Up to eight bytes in all, the padding keeps the value;
      beyond eight, the bytes past the eighth are zeros that are not read.
      The node's two's-complement form is one such case: for a value of
      2^63 or more it is nine bytes, the last a zero sign byte. */
  lemma ReadUint64RoundTrip(n: u64, k: nat)
    ensures ReadUint64(LittleEndianBytes(n) + Zeros(k)) == n
  {
    var le := LittleEndianBytes(n);
    var b := le + Zeros(k);
    LittleEndianBytesValue(n);
    LittleEndianBytesFit(n);
    if |b| <= 8 {
      LeValueZeroPad(le, k);
    } else {
      assert b[..8] == le + Zeros(8 - |le|) by {
        forall i | 0 <= i < 8 ensures b[..8][i] == (le + Zeros(8 - |le|))[i] {
          if i >= |le| {
            assert b[i] == Zeros(k)[i - |le|];
          }
        }
      }
      LeValueZeroPad(le, 8 - |le|);
    }
  }

  /** Every 64-bit value has at most eight minimal little-endian bytes. */
  lemma LittleEndianBytesFit(n: u64)
    ensures |LittleEndianBytes(n)| <= 8
  {
    assert Pow256(8) == 0x1_0000_0000_0000_0000;
    LittleEndianBytesLength(n, 8);
  }
}
