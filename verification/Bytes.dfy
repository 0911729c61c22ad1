/** Bytes, and 32-bit integers in network order. */
module Bytes {
  type Byte = b: int | 0 <= b < 256 witness 0

  const TWO_TO_31: int := 0x8000_0000

  function BigEndian(b: seq<Byte>): nat {
    if b == [] then 0 else 256 * BigEndian(b[..|b| - 1]) + b[|b| - 1]
  }

  function DecodeInt32(b: seq<Byte>): int
    requires |b| == 4
  {
    if BigEndian(b) < TWO_TO_31 then BigEndian(b) else BigEndian(b) - 2 * TWO_TO_31
  }

  function EncodeInt32(n: nat): (b: seq<Byte>)
    requires n < TWO_TO_31
    ensures |b| == 4
  {
    [n / 0x100_0000, n / 0x1_0000 % 256, n / 0x100 % 256, n % 256]
  }

  lemma BigEndianSnoc(b: seq<Byte>, x: Byte)
    ensures BigEndian(b + [x]) == 256 * BigEndian(b) + x
  {
    assert (b + [x])[..|b|] == b;
  }

  /** Four bytes are a signed number in two's complement: the only one of 32 bits that differs by a multiple of 2^32. */
  lemma DecodesTwosComplement(b: seq<Byte>)
    requires |b| == 4
    ensures -0x8000_0000 <= DecodeInt32(b) < 0x8000_0000
    ensures DecodeInt32(b) == BigEndian(b) || DecodeInt32(b) == BigEndian(b) - 0x1_0000_0000
    ensures DecodeInt32(b) < 0 <==> b[0] >= 128
  {
    assert b == [b[0], b[1], b[2], b[3]];
    BigEndianOfFour(b[0], b[1], b[2], b[3]);
    hide BigEndian;
  }

  lemma DecodeEncodeInt32(n: nat)
    requires n < TWO_TO_31
    ensures DecodeInt32(EncodeInt32(n)) == n
  {
    var a: Byte, b: Byte, c: Byte, d: Byte := n / 0x100_0000, n / 0x1_0000 % 256, n / 0x100 % 256, n % 256;
    Digits(n, a, b, c, d);
    BigEndianOfFour(a, b, c, d);
    hide BigEndian;
  }

  /** A number below 2^31 in base 256. */
  lemma Digits(n: nat, a: nat, b: nat, c: nat, d: nat)
    requires n < TWO_TO_31 && a == n / 0x100_0000 && b == n / 0x1_0000 % 256 && c == n / 0x100 % 256 && d == n % 256
    ensures n == 256 * (256 * (256 * a + b) + c) + d
  {
  }

  lemma BigEndianOfFour(a: Byte, b: Byte, c: Byte, d: Byte)
    ensures BigEndian([a, b, c, d]) == 256 * (256 * (256 * a + b) + c) + d
  {
    hide BigEndian;
    assert BigEndian([]) == 0 by { BigEndianOfNone(); }
    BigEndianSnoc([], a);
    BigEndianSnoc([a], b);
    BigEndianSnoc([a, b], c);
    BigEndianSnoc([a, b, c], d);
    assert [] + [a] == [a] && [a] + [b] == [a, b] && [a, b] + [c] == [a, b, c] && [a, b, c] + [d] == [a, b, c, d];
  }

  lemma BigEndianOfNone()
    ensures BigEndian([]) == 0
  {
  }
}
