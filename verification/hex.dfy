/** Bytes and their lowercase hexadecimal rendering, as Go's `%x` verb
    prints a byte array: two digits per byte, high nibble first. */
module Hex {

  newtype byte = x: int | 0 <= x < 256

  predicate IsLowerHex(c: char) {
    ('0' <= c <= '9') || ('a' <= c <= 'f')
  }

  /** The value of a hexadecimal digit (0 for anything else). */
  function DigitValue(c: char): (v: int)
    ensures 0 <= v < 16
  {
    if '0' <= c <= '9' then c as int - '0' as int
    else if 'a' <= c <= 'f' then c as int - 'a' as int + 10
    else 0
  }

  /** The lowercase digit for a nibble; `DigitValue` reads it back. */
  function Digit(n: int): (c: char)
    requires 0 <= n < 16
    ensures IsLowerHex(c)
    ensures DigitValue(c) == n
  {
    if n < 10 then ('0' as int + n) as char else ('a' as int + n - 10) as char
  }

  /** The two digits of one byte, high nibble first. */
  function ByteDigits(b: byte): (r: string)
    ensures |r| == 2 && IsLowerHex(r[0]) && IsLowerHex(r[1])
    ensures 16 * DigitValue(r[0]) + DigitValue(r[1]) == b as int
  {
    var n := b as int;
    [Digit(n / 16), Digit(n % 16)]
  }

  /** `%x` of a byte sequence: two lowercase digits per byte. */
  function Encode(bs: seq<byte>): (r: string)
    ensures |r| == 2 * |bs|
    ensures forall i :: 0 <= i < |r| ==> IsLowerHex(r[i])
  {
    if bs == [] then [] else ByteDigits(bs[0]) + Encode(bs[1..])
  }

  /** Reads pairs of hexadecimal digits back into bytes. */
  function Decode(s: string): (bs: seq<byte>)
    ensures |bs| == |s| / 2
  {
    if |s| < 2 then []
    else [(16 * DigitValue(s[0]) + DigitValue(s[1])) as byte] + Decode(s[2..])
  }

  /** Decoding recovers the encoded bytes. */
  lemma {:induction false} DecodeEncode(bs: seq<byte>)
    ensures Decode(Encode(bs)) == bs
  {
    if bs != [] {
      var r := Encode(bs);
      assert r == ByteDigits(bs[0]) + Encode(bs[1..]);
      assert r[2..] == Encode(bs[1..]);
      DecodeEncode(bs[1..]);
      assert Decode(r) == [bs[0]] + Decode(r[2..]);
      assert bs == [bs[0]] + bs[1..];
    }
  }

  /** So distinct byte sequences never print the same. */
  lemma EncodeInjective(a: seq<byte>, b: seq<byte>)
    ensures Encode(a) == Encode(b) <==> a == b
  {
    if Encode(a) == Encode(b) {
      DecodeEncode(a);
      DecodeEncode(b);
    }
  }
}
