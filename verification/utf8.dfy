/**
 * UTF-8 encoding of Unicode scalar values, as `String.data(using: .utf8)`
 * produces it (section 3 of RFC 3629). A Swift string always encodes, so the
 * `nil` case that `safelyUnwrapedData` guards against never arises.
 */
module Utf8 {

  import opened Basics

  /**
   * The scalar value a one- to four-byte sequence carries: the bits below
   * the lead byte's length marker, followed by six bits per continuation byte.
   */
  function DecodeScalar(bs: seq<byte>): int
    requires 1 <= |bs| <= 4
  {
    if |bs| == 1 then bs[0] as int
    else if |bs| == 2 then (bs[0] as int - 0xC0) * 64 + (bs[1] as int - 0x80)
    else if |bs| == 3 then (bs[0] as int - 0xE0) * 4096 + (bs[1] as int - 0x80) * 64 + (bs[2] as int - 0x80)
    else (bs[0] as int - 0xF0) * 262144 + (bs[1] as int - 0x80) * 4096 + (bs[2] as int - 0x80) * 64 + (bs[3] as int - 0x80)
  }

  /** The one to four bytes of one scalar value. */
  function EncodeScalar(c: char): (bs: seq<byte>)
    ensures 1 <= |bs| <= 4
    // the shortest form: the length is fixed by the range of the code point
    ensures |bs| == (if c as int < 0x80 then 1 else if c as int < 0x800 then 2 else if c as int < 0x10000 then 3 else 4)
    ensures c as int < 0x80 ==> bs[0] as int == c as int
    // the lead byte announces the length; every other byte is a continuation byte
    ensures |bs| == 2 ==> 0xC0 <= bs[0] < 0xE0
    ensures |bs| == 3 ==> 0xE0 <= bs[0] < 0xF0
    ensures |bs| == 4 ==> 0xF0 <= bs[0] < 0xF8
    ensures forall i :: 1 <= i < |bs| ==> 0x80 <= bs[i] < 0xC0
    // and the bytes carry exactly the code point
    ensures DecodeScalar(bs) == c as int
  {
    var n := c as int;
    var low, m := n % 64, n / 64;
    DivMod64(n);
    if n < 0x80 then [n as byte]
    else if n < 0x800 then [(0xC0 + m) as byte, (0x80 + low) as byte]
    else
      var mid, m2 := m % 64, m / 64;
      DivMod64(m);
      if n < 0x10000 then [(0xE0 + m2) as byte, (0x80 + mid) as byte, (0x80 + low) as byte]
      else
        var high, m3 := m2 % 64, m2 / 64;
        DivMod64(m2);
        [(0xF0 + m3) as byte, (0x80 + high) as byte, (0x80 + mid) as byte, (0x80 + low) as byte]
  }

  /** Splitting off the low six bits. */
  lemma DivMod64(x: nat)
    ensures x == (x / 64) * 64 + x % 64 && 0 <= x % 64 < 64
  {
  }

  /** The UTF-8 bytes of a string. */
  function Encode(s: string): (bs: Data)
    ensures |bs| >= |s|
    ensures |s| > 0 ==> |bs| > 0
  {
    if |s| == 0 then [] else EncodeScalar(s[0]) + Encode(s[1..])
  }

  /** Encoding commutes with concatenation, so encoding a string piecewise gives the same bytes. */
  lemma {:induction false} EncodeAppend(a: string, b: string)
    ensures Encode(a + b) == Encode(a) + Encode(b)
  {
    if |a| == 0 {
      assert a + b == b;
    } else {
      var head, rest := EncodeScalar(a[0]), a[1..];
      assert (a + b)[0] == a[0];
      assert (a + b)[1..] == rest + b;
      EncodeAppend(rest, b);
      assert Encode(a + b) == head + (Encode(rest) + Encode(b));
      assert Encode(a) == head + Encode(rest);
    }
  }

  /** An ASCII string encodes as its code points, one byte each. */
  lemma {:induction false} EncodeAscii(s: string)
    requires forall i :: 0 <= i < |s| ==> s[i] as int < 0x80
    ensures |Encode(s)| == |s|
    ensures forall i :: 0 <= i < |s| ==> Encode(s)[i] as int == s[i] as int
  {
    if |s| > 0 {
      EncodeAscii(s[1..]);
      assert Encode(s) == EncodeScalar(s[0]) + Encode(s[1..]);
      forall i | 1 <= i < |s| ensures Encode(s)[i] as int == s[i] as int {
        assert s[1..][i - 1] == s[i];
      }
    }
  }
}
