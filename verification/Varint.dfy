/**
 Zigzag base-128 integers (benchmarks/varint_speed.py): six encoders, two size functions and three
 decoders, written with the source's own bit operations and proved against one encoding function and
 one decoding function, which are each other's inverse.
 */
module Varint {
  import opened Wrappers
  import opened Bits
  import opened Bytes

  datatype Error = ValueError | IndexError

  // ---------- the reference ----------

  function Zigzag(v: int): nat {
    SameSign(v);
    Xor(Shl(v, 1), Shr(v, 63))
  }

  function Unzigzag(u: int): int { Xor(Shr(u, 1), -And(u, 1)) }

  /** Seven bits a byte, least significant first, the top bit set on all but the last. */
  function Digits(u: nat): (r: seq<Byte>)
    ensures r != []
  {
    if u < 128 then [u] else [128 + u % 128] + Digits(u / 128)
  }

  /** Read the bytes of one integer from `pos`, none of them at or behind `end`. */
  function Undigits(b: seq<Byte>, pos: nat, end: nat): Result<(nat, nat), Error>
    decreases end - pos
  {
    if pos >= end then Err(ValueError)
    else if pos >= |b| then Err(IndexError)
    else if b[pos] < 128 then Ok((b[pos], pos + 1))
    else match Undigits(b, pos + 1, end)
      case Ok(r) => Ok((b[pos] - 128 + 128 * r.0, r.1))
      case Err(e) => Err(e)
  }

  function Encoding(v: int): seq<Byte> {
    Digits(Zigzag(v))
  }

  function Decoding(b: seq<Byte>, pos: nat): Result<(int, nat), Error> {
    match Undigits(b, pos, pos + 10)
    case Ok(r) => Ok((Unzigzag(r.0), r.1))
    case Err(e) => Err(e)
  }

  predicate Int64(v: int) { -TWO_TO_63 <= v < TWO_TO_63 }

  // ---------- zigzag ----------

  const TWO_TO_63 := 0x8000_0000_0000_0000
  const TWO_TO_70 := 0x40_0000_0000_0000_0000

  lemma PowersOfTwo()
    ensures Pow2(1) == 2 && Pow2(7) == 0x80 && Pow2(14) == 0x4000 && Pow2(21) == 0x20_0000 && Pow2(28) == 0x1000_0000
    ensures Pow2(35) == 0x8_0000_0000 && Pow2(42) == 0x400_0000_0000 && Pow2(49) == 0x2_0000_0000_0000
    ensures Pow2(56) == 0x100_0000_0000_0000 && Pow2(63) == TWO_TO_63 && Pow2(70) == TWO_TO_70
  {
  }

  lemma SameSign(v: int)
    ensures Xor(Shl(v, 1), Shr(v, 63)) >= 0
  {
    PowersOfTwo();
    XorSameSign(Shl(v, 1), Shr(v, 63));
  }

  /** On 64-bit values zigzag interleaves the non-negative and the negative numbers. */
  lemma ZigzagInterleaves(v: int)
    requires Int64(v)
    ensures Zigzag(v) == (if v >= 0 then 2 * v else -2 * v - 1) && Zigzag(v) < 2 * TWO_TO_63
  {
    PowersOfTwo();
    assert Shl(v, 1) == 2 * v;
    if v >= 0 {
      assert Shr(v, 63) == 0;
      XorZero(Shl(v, 1));
    } else {
      assert Shr(v, 63) == -1;
      XorOnes(Shl(v, 1));
    }
  }

  /** The two halves of a zigzag value: the bits, xored with half the shift, and the lowest bit. */
  lemma ZigzagHalves(v: int)
    ensures var k, u := Shr(v, 63), Zigzag(v);
      Shr(u, 1) == Xor(v, k / 2) && And(u, 1) == k % 2
  {
    hide Shr, And, Xor;
    LowBits(Zigzag(v));
    assert Shl(v, 1) == 2 * v;
    XorUnfolds(2 * v, Shr(v, 63));
  }

  lemma SignShift(v: int)
    ensures Int64(v) <==> Shr(v, 63) == 0 || Shr(v, 63) == -1
  {
    PowersOfTwo();
  }

  /** Zigzag is undone exactly on 64-bit values: the shift by 63 is the sign only there. */
  lemma UnzigzagUndoesIffInt64(v: int)
    ensures Unzigzag(Zigzag(v)) == v <==> Int64(v)
  {
    hide Zigzag, Shr, And, Xor;
    var k := Shr(v, 63);
    ZigzagHalves(v);
    SignShift(v);
    var half := Xor(v, k / 2);
    if k % 2 == 0 {
      XorZero(half);
      XorZero(v);
      XorCancels(v, k / 2, 0);
    } else {
      XorOnes(half);
      XorOnes(v);
      XorCancels(v, k / 2, -1);
    }
  }

  // ---------- digits ----------

  lemma {:induction false} DigitsLength(u: nat, k: nat)
    requires k > 0
    ensures |Digits(u)| <= k <==> u < Pow2(7 * k)
    decreases k
  {
    PowersOfTwo();
    if k > 1 {
      Pow2Sum(7, 7 * (k - 1));
      if u >= 128 { DigitsLength(u / 128, k - 1); }
    }
  }

  lemma {:induction false} UndigitsUndoes(b: seq<Byte>, pos: nat, u: nat, end: nat)
    requires pos + |Digits(u)| <= |b| && b[pos..pos + |Digits(u)|] == Digits(u) && pos + |Digits(u)| <= end
    ensures Undigits(b, pos, end) == Ok((u, pos + |Digits(u)|))
    decreases u
  {
    assert b[pos] == Digits(u)[0];
    if u >= 128 {
      assert b[pos + 1..pos + |Digits(u)|] == Digits(u)[1..] == Digits(u / 128);
      UndigitsUndoes(b, pos + 1, u / 128, end);
    }
  }

  /** Ten bytes are enough exactly below 2^70. */
  lemma EncodingLength(v: int)
    ensures 1 <= |Encoding(v)|
    ensures |Encoding(v)| <= 10 <==> Zigzag(v) < TWO_TO_70
    ensures Int64(v) ==> |Encoding(v)| <= 10
  {
    PowersOfTwo();
    DigitsLength(Zigzag(v), 10);
    if Int64(v) { ZigzagInterleaves(v); }
  }

  /** Decoding an encoding gives the value back and stops just behind it, wherever it stands in a buffer. */
  lemma DecodingUndoesEncoding(b: seq<Byte>, pos: nat, v: int)
    requires Int64(v) && pos + |Encoding(v)| <= |b| && b[pos..pos + |Encoding(v)|] == Encoding(v)
    ensures Decoding(b, pos) == Ok((v, pos + |Encoding(v)|))
  {
    hide Zigzag, Unzigzag, Undigits, Digits;
    EncodingLength(v);
    UndigitsUndoes(b, pos, Zigzag(v), pos + 10);
    UnzigzagUndoesIffInt64(v);
  }

  function EncodeAll(vs: seq<int>): seq<Byte> { if vs == [] then [] else Encoding(vs[0]) + EncodeAll(vs[1..]) }

  function DecodeAll(b: seq<Byte>, pos: nat, n: nat): Result<seq<int>, Error>
    decreases n
  {
    if n == 0 then Ok([])
    else match Decoding(b, pos)
      case Err(e) => Err(e)
      case Ok(r) => match DecodeAll(b, r.1, n - 1)
        case Err(e) => Err(e)
        case Ok(vs) => Ok([r.0] + vs)
  }

  lemma SliceSplits(b: seq<Byte>, pos: nat, head: seq<Byte>, tail: seq<Byte>)
    requires pos + |head + tail| <= |b| && b[pos..pos + |head + tail|] == head + tail
    ensures b[pos..pos + |head|] == head && b[pos + |head|..pos + |head| + |tail|] == tail
  {
    assert head == (head + tail)[..|head|] == b[pos..pos + |head|];
    assert tail == (head + tail)[|head|..] == b[pos + |head|..pos + |head| + |tail|];
  }

  /** Encodings written one after the other decode to the values written. */
  lemma {:induction false} ConcatenationDecodes(b: seq<Byte>, pos: nat, vs: seq<int>)
    requires forall i :: 0 <= i < |vs| ==> Int64(vs[i])
    requires pos + |EncodeAll(vs)| <= |b| && b[pos..pos + |EncodeAll(vs)|] == EncodeAll(vs)
    ensures DecodeAll(b, pos, |vs|) == Ok(vs)
    decreases |vs|
  {
    hide Encoding, Decoding;
    if vs != [] {
      SliceSplits(b, pos, Encoding(vs[0]), EncodeAll(vs[1..]));
      DecodingUndoesEncoding(b, pos, vs[0]);
      ConcatenationDecodes(b, pos + |Encoding(vs[0])|, vs[1..]);
      assert [vs[0]] + vs[1..] == vs;
    }
  }

  // ---------- the bit operations of the loops ----------

  lemma LowBits(x: int)
    ensures And(x, 0x7f) == x % 128 && Shr(x, 7) == x / 128 && And(x, 1) == x % 2 && Shr(x, 1) == x / 2
  {
    PowersOfTwo();
    AndMask(x, 7);
    AndMask(x, 1);
  }

  lemma Continued(x: int)
    requires 0 <= x < 128
    ensures Or(0x80, x) == 128 + x == Or(x, 0x80)
  {
    PowersOfTwo();
    OrDisjoint(x, 1, 7);
    assert Shl(1, 7) == 0x80;
  }

  /** The tests of the decoders on a byte. */
  lemma TopBit(b: Byte)
    ensures And(b, 0x80) == 0 <==> b < 128
  {
    AndBit(b, 7);
    assert Pow2(7) == 0x80;
  }

  lemma TopAndLowBit(b: Byte)
    ensures And(b, 0x81) == 0 <==> b < 128 && b % 2 == 0
  {
    AndBit(b / 2, 6);
    assert Pow2(6) == 0x40;
    AndUnfolds(b, 0x81);
  }

  /** The byte that the first encoder stores, and what is left to encode. */
  lemma FirstDigit(x: nat)
    ensures var b := Or(And(x, 0x7f), if x > 0x7f then 0x80 else 0);
      && 0 <= b < 256 && Shr(x, 7) >= 0
      && Digits(x) == if Shr(x, 7) == 0 then [b] else [b] + Digits(Shr(x, 7))
  {
    LowBits(x);
    Continued(x % 128);
    OrZero(x % 128);
  }

  lemma FirstDigitBehind(written: seq<Byte>, x: nat)
    ensures var b := Or(And(x, 0x7f), if x > 0x7f then 0x80 else 0);
      && 0 <= b < 256 && Shr(x, 7) >= 0
      && written + Digits(x) == if Shr(x, 7) == 0 then written + [b] else (written + [b]) + Digits(Shr(x, 7))
  {
    hide Or, And, Shr, Digits;
    FirstDigit(x);
    var b, rest := Or(And(x, 0x7f), if x > 0x7f then 0x80 else 0), Digits(Shr(x, 7));
    assert written + ([b] + rest) == (written + [b]) + rest;
  }

  /** The digits when the lowest seven bits are held back in `bits`. */
  function Held(v: nat, bits: Byte): seq<Byte>
    requires bits < 128
  {
    if v == 0 then [bits] else [128 + bits] + Digits(v)
  }

  /** Writing the held digit and holding back the next one changes nothing in the whole. */
  lemma HeldStep(written: seq<Byte>, v: nat, bits: Byte)
    requires v > 0 && bits < 128
    ensures 0 <= Or(0x80, bits) < 256 && 0 <= And(v, 0x7f) < 128 && 0 <= Shr(v, 7) < v
    ensures written + Held(v, bits) == (written + [Or(0x80, bits)]) + Held(Shr(v, 7), And(v, 0x7f))
  {
    hide Or, And, Shr, Digits;
    Continued(bits);
    HoldBack(v);
    var bits', v' := And(v, 0x7f), Shr(v, 7);
    assert written + ([128 + bits] + Held(v', bits')) == (written + [128 + bits]) + Held(v', bits');
  }

  lemma HoldBack(x: nat)
    ensures 0 <= And(x, 0x7f) < 128 && 0 <= Shr(x, 7) <= x && (x > 0 ==> Shr(x, 7) < x)
    ensures Digits(x) == Held(Shr(x, 7), And(x, 0x7f))
  {
    LowBits(x);
  }

  // ---------- encoders ----------

  method EncodeVarint1(value: int) returns (r: Result<seq<Byte>, Error>)
    ensures r == if Zigzag(value) < TWO_TO_70 then Ok(Encoding(value)) else Err(ValueError)
  {
    hide Zigzag, Digits, And, Or, Shr;
    EncodingLength(value);
    var num: nat := Zigzag(value);
    var buf := new Byte[10];
    ghost var written: seq<Byte> := [];
    for i := 0 to 10
      invariant buf[..i] == written && Encoding(value) == written + Digits(num)
    {
      FirstDigitBehind(written, num);
      buf[i] := Or(And(num, 0x7f), if num > 0x7f then 0x80 else 0);
      written := written + [buf[i]];
      assert buf[..i + 1] == written;
      num := Shr(num, 7);
      if num == 0 {
        return Ok(buf[..i + 1]);
      }
    }
    return Err(ValueError);
  }

  method EncodeVarint2(value: int) returns (r: seq<Byte>)
    ensures r == Encoding(value)
  {
    hide Zigzag, Digits, And, Or, Shr;
    var v: nat := Zigzag(value);
    HoldBack(v);
    var bits: Byte := And(v, 0x7f);
    v := Shr(v, 7);
    r := [];
    while v != 0
      invariant bits < 128 && Encoding(value) == r + Held(v, bits)
      decreases v
    {
      HeldStep(r, v, bits);
      r := r + [Or(0x80, bits)];
      bits := And(v, 0x7f);
      v := Shr(v, 7);
    }
    return r + [bits];
  }

  /** A growing `bytearray`. */
  class ByteArray {
    var bytes: seq<Byte>

    constructor ()
      ensures bytes == []
    {
      bytes := [];
    }

    method Append(b: Byte)
      modifies this
      ensures bytes == old(bytes) + [b]
    {
      bytes := bytes + [b];
    }
  }

  /** The value of the loop variable when the loop ends is returned: always 0. */
  method EncodeVarint3(value: int, buf: ByteArray) returns (left: int)
    modifies buf
    ensures buf.bytes == old(buf.bytes) + Encoding(value) && left == 0
  {
    hide Zigzag, Digits, And, Or, Shr;
    var v: nat := Zigzag(value);
    HoldBack(v);
    var bits: Byte := And(v, 0x7f);
    v := Shr(v, 7);
    while v != 0
      invariant bits < 128 && old(buf.bytes) + Encoding(value) == buf.bytes + Held(v, bits)
      decreases v
    {
      HeldStep(buf.bytes, v, bits);
      buf.Append(Or(0x80, bits));
      bits := And(v, 0x7f);
      v := Shr(v, 7);
    }
    buf.Append(bits);
    return v;
  }

  /** A digit that is not the last, as the unrolled branches write it. */
  function Middle(u: nat, k: nat): int { Or(0x80, And(Shr(u, k), 0x7f)) }

  lemma ShiftedDigits(u: nat, k: nat)
    ensures Shr(u, k) >= 0 && Shr(u, k + 7) >= 0 && 0 <= Middle(u, k) < 256
    ensures Digits(Shr(u, k)) == if Shr(u, k + 7) == 0 then [Shr(u, k)] else [Middle(u, k)] + Digits(Shr(u, k + 7))
  {
    hide Or, And;
    assert Pow2(7) == 128;
    DivNat(u, Pow2(k));
    ShrShr(u, k, 7);
    LowBits(Shr(u, k));
    Continued(Shr(u, k) % 128);
  }

  lemma DivNat(u: nat, d: int)
    requires d > 0
    ensures u / d >= 0 && (u / d == 0 <==> u < d)
  {
  }

  /** Below 2^(k + 7) the digit at k is the last. */
  lemma LastDigit(u: nat, k: nat)
    ensures Shr(u, k) >= 0
    ensures Shr(u, k + 7) == 0 <==> u < Pow2(k + 7)
    ensures u < Pow2(k + 7) ==> Shr(u, k) < 128 && Digits(Shr(u, k)) == [Shr(u, k)]
  {
    ShiftedDigits(u, k);
    DivNat(u, Pow2(k + 7));
  }

  /** n digits from k on with their top bits set, and the rest. */
  function Unrolled(u: nat, k: nat, n: nat): seq<int>
    decreases n
  {
    if n == 0 then [Shr(u, k)] else [Middle(u, k)] + Unrolled(u, k + 7, n - 1)
  }

  lemma {:induction false} UnrolledIsDigits(u: nat, k: nat, n: nat)
    requires (n > 0 ==> Pow2(k + 7 * n) <= u) && u < Pow2(k + 7 * n + 7)
    ensures Shr(u, k) >= 0 && Unrolled(u, k, n) == Digits(Shr(u, k))
    decreases n
  {
    hide Or, And, Shr, Digits, Middle;
    LastDigit(u, k);
    if n > 0 {
      ShiftedDigits(u, k);
      Pow2Sum(k + 7, 7 * (n - 1));
      MulLe(Pow2(k + 7), 1, Pow2(7 * (n - 1)));
      UnrolledIsDigits(u, k + 7, n - 1);
    }
  }

  /** The unrolled branches, by the number n + 1 of bytes. */
  lemma UnrolledBytes(u: nat, n: nat)
    requires n <= 4
    requires (n > 0 ==> Pow2(7 * n) <= u) && u < Pow2(7 * n + 7)
    ensures Digits(u) ==
      if n == 0 then [u]
      else if n == 1 then [Or(0x80, And(u, 0x7f)), Shr(u, 7)]
      else if n == 2 then [Or(0x80, And(u, 0x7f)), Middle(u, 7), Shr(u, 14)]
      else if n == 3 then [Or(0x80, And(u, 0x7f)), Middle(u, 7), Middle(u, 14), Shr(u, 21)]
      else [Or(0x80, And(u, 0x7f)), Middle(u, 7), Middle(u, 14), Middle(u, 21), Shr(u, 28)]
    ensures 0 <= Or(0x80, And(u, 0x7f)) < 256 && 0 <= Middle(u, 7) < 256 && 0 <= Middle(u, 14) < 256 && 0 <= Middle(u, 21) < 256
    ensures 0 <= Shr(u, 7 * n) < 128
  {
    hide Or, And, Shr, Digits, Middle, Pow2;
    UnrolledIsDigits(u, 0, n);
    ShiftByNothing(u);
    ShiftedDigits(u, 0); ShiftedDigits(u, 7); ShiftedDigits(u, 14); ShiftedDigits(u, 21);
    LastDigit(u, 7 * n);
  }

  lemma ShiftByNothing(u: nat)
    ensures Shr(u, 0) == u && Middle(u, 0) == Or(0x80, And(u, 0x7f))
  {
  }

  method EncodeVarint4(value: int) returns (r: seq<Byte>)
    ensures r == Encoding(value)
  {
    hide Zigzag, Digits, And, Or, Shr, Middle, Pow2;
    PowersOfTwo();
    var v: nat := Zigzag(value);
    if v <= 0x7f { UnrolledBytes(v, 0); return [v]; }
    if v <= 0x3fff { UnrolledBytes(v, 1); return [Or(0x80, And(v, 0x7f)), Shr(v, 7)]; }
    if v <= 0x1f_ffff { UnrolledBytes(v, 2); return [Or(0x80, And(v, 0x7f)), Middle(v, 7), Shr(v, 14)]; }
    if v <= 0xfff_ffff {
      UnrolledBytes(v, 3);
      return [Or(0x80, And(v, 0x7f)), Middle(v, 7), Middle(v, 14), Shr(v, 21)];
    }
    if v <= 0x7_ffff_ffff {
      UnrolledBytes(v, 4);
      return [Or(0x80, And(v, 0x7f)), Middle(v, 7), Middle(v, 14), Middle(v, 21), Shr(v, 28)];
    }
    HoldBack(v);
    var bits: Byte := And(v, 0x7f);
    v := Shr(v, 7);
    r := [];
    while v != 0
      invariant bits < 128 && Encoding(value) == r + Held(v, bits)
      decreases v
    {
      HeldStep(r, v, bits);
      r := r + [Or(0x80, bits)];
      bits := And(v, 0x7f);
      v := Shr(v, 7);
    }
    return r + [bits];
  }

  /** `b` with `bytes` written over it from `pos`. */
  function Overlay(b: seq<Byte>, pos: nat, bytes: seq<Byte>): seq<Byte>
    requires pos + |bytes| <= |b|
  {
    b[..pos] + bytes + b[pos + |bytes|..]
  }

  lemma OverlayNothing(b: seq<Byte>, pos: nat)
    requires pos <= |b|
    ensures Overlay(b, pos, []) == b
  {
  }

  lemma OverlayStep(b: seq<Byte>, pos: nat, bytes: seq<Byte>, x: Byte)
    requires pos + |bytes| < |b|
    ensures Overlay(b, pos, bytes)[pos + |bytes| := x] == Overlay(b, pos, bytes + [x])
  {
  }

  /** Writes at `pos`; a buffer too short raises, with the bytes that fit already written. */
  method EncodeVarint5(value: int, buf: array<Byte>, pos: nat) returns (r: Result<nat, Error>)
    modifies buf
    ensures var end := pos + |Encoding(value)|;
      if end <= buf.Length then r == Ok(end) && buf[..] == Overlay(old(buf[..]), pos, Encoding(value))
      else if pos <= buf.Length then r == Err(IndexError) && buf[..] == Overlay(old(buf[..]), pos, Encoding(value)[..buf.Length - pos])
      else r == Err(IndexError) && buf[..] == old(buf[..])
  {
    hide Zigzag, Digits, And, Or, Shr, Overlay;
    var v: nat := Zigzag(value);
    HoldBack(v);
    var bits: Byte := And(v, 0x7f);
    v := Shr(v, 7);
    var p := pos;
    ghost var before := buf[..];
    ghost var written: seq<Byte> := [];
    if pos <= buf.Length { OverlayNothing(before, pos); }
    while v != 0
      invariant pos <= p && (p == pos || p <= buf.Length) && bits < 128 && |written| == p - pos
      invariant Encoding(value) == written + Held(v, bits)
      invariant if pos <= buf.Length then buf[..] == Overlay(before, pos, written) else buf[..] == before
      decreases v
    {
      HeldStep(written, v, bits);
      if p >= buf.Length {
        assert pos <= buf.Length ==> Encoding(value)[..p - pos] == written;
        return Err(IndexError);
      }
      OverlayStep(before, pos, written, Or(0x80, bits));
      assert Overlay(before, pos, written)[p := Or(0x80, bits)] == buf[..][p := Or(0x80, bits)];
      buf[p] := Or(0x80, bits);
      written := written + [Or(0x80, bits)];
      bits := And(v, 0x7f);
      v := Shr(v, 7);
      p := p + 1;
    }
    if p >= buf.Length {
      assert pos <= buf.Length ==> Encoding(value)[..p - pos] == written;
      return Err(IndexError);
    }
    OverlayStep(before, pos, written, bits);
    buf[p] := bits;
    return Ok(p + 1);
  }

  /** The count that the last encoder returns. */
  function Count6(value: int): nat {
    |Encoding(value)| - (if Zigzag(value) <= 0x7_ffff_ffff then 0 else 1)
  }

  /** It is the number of bytes if and only if there are at most five of them; for 2^34 it is 5 where there are 6. */
  lemma CountIsRightIffUnrolled(value: int)
    ensures Count6(value) == |Encoding(value)| <==> |Encoding(value)| <= 5
    ensures Count6(0x4_0000_0000) == 5 && |Encoding(0x4_0000_0000)| == 6
  {
    hide Zigzag, Digits;
    PowersOfTwo();
    DigitsLength(Zigzag(value), 5);
    ZigzagInterleaves(0x4_0000_0000);
    DigitsLength(Zigzag(0x4_0000_0000), 5);
    DigitsLength(Zigzag(0x4_0000_0000), 6);
  }

  /** The count that is returned is one short of the bytes appended in the general path, and only there. */
  method EncodeVarint6(value: int, buf: ByteArray) returns (count: nat)
    modifies buf
    ensures buf.bytes == old(buf.bytes) + Encoding(value)
    ensures count == Count6(value)
  {
    hide Zigzag, Digits, And, Or, Shr, Middle, Pow2;
    PowersOfTwo();
    var v: nat := Zigzag(value);
    if v <= 0x7f {
      UnrolledBytes(v, 0);
      buf.Append(v);
      return 1;
    }
    if v <= 0x3fff {
      UnrolledBytes(v, 1);
      buf.Append(Or(0x80, And(v, 0x7f)));
      buf.Append(Shr(v, 7));
      return 2;
    }
    if v <= 0x1f_ffff {
      UnrolledBytes(v, 2);
      buf.Append(Or(0x80, And(v, 0x7f)));
      buf.Append(Middle(v, 7));
      buf.Append(Shr(v, 14));
      return 3;
    }
    if v <= 0xfff_ffff {
      UnrolledBytes(v, 3);
      buf.Append(Or(0x80, And(v, 0x7f)));
      buf.Append(Middle(v, 7));
      buf.Append(Middle(v, 14));
      buf.Append(Shr(v, 21));
      return 4;
    }
    if v <= 0x7_ffff_ffff {
      UnrolledBytes(v, 4);
      buf.Append(Or(0x80, And(v, 0x7f)));
      buf.Append(Middle(v, 7));
      buf.Append(Middle(v, 14));
      buf.Append(Middle(v, 21));
      buf.Append(Shr(v, 28));
      return 5;
    }
    HoldBack(v);
    var bits: Byte := And(v, 0x7f);
    v := Shr(v, 7);
    count := 0;
    while v != 0
      invariant bits < 128 && old(buf.bytes) + Encoding(value) == buf.bytes + Held(v, bits)
      invariant |buf.bytes| == |old(buf.bytes)| + count
      decreases v
    {
      HeldStep(buf.bytes, v, bits);
      buf.Append(Or(0x80, bits));
      bits := And(v, 0x7f);
      v := Shr(v, 7);
      count := count + 1;
    }
    buf.Append(bits);
  }

  // ---------- sizes ----------

  method SizeOfVarint1(value: int) returns (size: nat)
    ensures size == |Encoding(value)|
  {
    hide Zigzag, Digits, And, Or, Shr;
    var v: nat := Zigzag(value);
    size := 0;
    while true
      invariant |Encoding(value)| == size + |Digits(v)|
      decreases v
    {
      size := size + 1;
      FirstDigit(v);
      HoldBack(v);
      v := Shr(v, 7);
      if v == 0 { break; }
    }
  }

  function SizeOfVarint2(value: int): (size: nat)
    ensures Zigzag(value) < TWO_TO_70 ==> size == |Encoding(value)|
    ensures Zigzag(value) >= TWO_TO_70 ==> size == 10 < |Encoding(value)|
  {
    hide Zigzag, Digits;
    var v := Zigzag(value);
    TableOfLengths(v);
    if v <= 0x7f then 1
    else if v <= 0x3fff then 2
    else if v <= 0x1f_ffff then 3
    else if v <= 0xfff_ffff then 4
    else if v <= 0x7_ffff_ffff then 5
    else if v <= 0x3ff_ffff_ffff then 6
    else if v <= 0x1_ffff_ffff_ffff then 7
    else if v <= 0xff_ffff_ffff_ffff then 8
    else if v <= 0x7fff_ffff_ffff_ffff then 9
    else 10
  }

  lemma TableOfLengths(u: nat)
    ensures |Digits(u)| <= 1 <==> u <= 0x7f
    ensures |Digits(u)| <= 2 <==> u <= 0x3fff
    ensures |Digits(u)| <= 3 <==> u <= 0x1f_ffff
    ensures |Digits(u)| <= 4 <==> u <= 0xfff_ffff
    ensures |Digits(u)| <= 5 <==> u <= 0x7_ffff_ffff
    ensures |Digits(u)| <= 6 <==> u <= 0x3ff_ffff_ffff
    ensures |Digits(u)| <= 7 <==> u <= 0x1_ffff_ffff_ffff
    ensures |Digits(u)| <= 8 <==> u <= 0xff_ffff_ffff_ffff
    ensures |Digits(u)| <= 9 <==> u <= 0x7fff_ffff_ffff_ffff
    ensures |Digits(u)| <= 10 <==> u < TWO_TO_70
  {
    hide Digits;
    PowersOfTwo();
    DigitsLength(u, 1); DigitsLength(u, 2); DigitsLength(u, 3); DigitsLength(u, 4); DigitsLength(u, 5);
    DigitsLength(u, 6); DigitsLength(u, 7); DigitsLength(u, 8); DigitsLength(u, 9); DigitsLength(u, 10);
  }

  // ---------- decoders ----------

  /** `value` read so far below 2^shift, then the rest of the integer. */
  function Resumed(value: nat, shift: nat, rest: Result<(nat, nat), Error>): Result<(nat, nat), Error> {
    match rest
    case Ok(r) => Ok((value + r.0 * Pow2(shift), r.1))
    case Err(e) => Err(e)
  }

  /** Or-ing the low bits of a byte in above `value`. */
  lemma OrIn(value: nat, shift: nat, b: Byte)
    requires value < Pow2(shift)
    ensures var low := And(b, 0x7f); var v := Or(value, Shl(low, shift));
      low == b % 128 && v == value + low * Pow2(shift) && 0 <= v < Pow2(shift + 7)
  {
    hide And, Or;
    var low, p := b % 128, Pow2(shift);
    LowBits(b);
    OrDisjoint(value, low, shift);
    Pow2Sum(shift, 7);
    assert Pow2(7) == 128;
    MulLe(p, low, 127);
    MulLe(p, 0, low);
  }

  lemma Carry(value: nat, low: nat, rest: nat, p: nat)
    ensures value + (low + 128 * rest) * p == (value + low * p) + rest * (p * 128)
  {
  }

  /** Taking one more byte into `value`. */
  lemma TakeByte(value: nat, shift: nat, b: seq<Byte>, pos: nat, end: nat)
    requires value < Pow2(shift) && pos < end && pos < |b|
    ensures var v := Or(value, Shl(And(b[pos], 0x7f), shift));
      && 0 <= v < Pow2(shift + 7)
      && Resumed(value, shift, Undigits(b, pos, end)) ==
           if b[pos] < 128 then Ok((v, pos + 1)) else Resumed(v, shift + 7, Undigits(b, pos + 1, end))
    ensures b[pos] < 128 ==> And(b[pos], 0x7f) == b[pos]
  {
    hide And, Or, Shl;
    OrIn(value, shift, b[pos]);
    Pow2Sum(shift, 7);
    assert Pow2(7) == 128;
    var rest := Undigits(b, pos + 1, end);
    if b[pos] >= 128 && rest.Ok? { Carry(value, b[pos] - 128, rest.value.0, Pow2(shift)); }
  }

  lemma Unshifted(b: seq<Byte>, pos: nat, end: nat)
    ensures Resumed(0, 0, Undigits(b, pos, end)) == Undigits(b, pos, end)
  {
  }

  /** End of the buffer is reported as a ValueError by the first decoder and as an IndexError by the others. */
  function AllValueErrors(r: Result<(int, nat), Error>): Result<(int, nat), Error> {
    if r.Err? then Err(ValueError) else r
  }

  method DecodeVarint1(buffer: seq<Byte>, pos: nat) returns (r: Result<(int, nat), Error>)
    ensures r == AllValueErrors(Decoding(buffer, pos))
  {
    hide Undigits, And, Or, Shr, Shl, Resumed, Unzigzag;
    var value: nat := 0;
    var shift: nat := 0;
    ghost var end := pos + 10;
    Unshifted(buffer, pos, end);
    for i := pos to pos + 10
      invariant value < Pow2(shift)
      invariant Undigits(buffer, pos, end) == Resumed(value, shift, Undigits(buffer, i, end))
    {
      if i >= |buffer| {
        OutOfBytes(value, shift, buffer, i, end);
        return Err(ValueError);
      }
      var byte := buffer[i];
      TakeByte(value, shift, buffer, i, end);
      TopBit(byte);
      if And(byte, 0x80) != 0 {
        value := Or(value, Shl(And(byte, 0x7f), shift));
        shift := shift + 7;
      } else {
        value := Or(value, Shl(byte, shift));
        UnzigzagIs(value);
        return Ok((Xor(Shr(value, 1), -And(value, 1)), i + 1));
      }
    }
    OutOfBytes(value, shift, buffer, end, end);
    return Err(ValueError);
  }

  lemma UnzigzagIs(u: int)
    ensures Unzigzag(u) == Xor(Shr(u, 1), -And(u, 1))
  {
  }

  lemma OutOfBytes(value: nat, shift: nat, b: seq<Byte>, pos: nat, end: nat)
    requires pos >= end || pos >= |b|
    ensures Resumed(value, shift, Undigits(b, pos, end)) == Err(if pos >= end then ValueError else IndexError)
  {
  }

  method DecodeVarint2(buffer: seq<Byte>, pos: nat) returns (r: Result<(int, nat), Error>)
    ensures r == Decoding(buffer, pos)
  {
    hide Undigits, And, Or, Shr, Shl, Resumed, Unzigzag;
    var result: nat := 0;
    var shift: nat := 0;
    var p := pos;
    ghost var end := pos + 10;
    Unshifted(buffer, pos, end);
    while true
      invariant result < Pow2(shift) && shift == 7 * (p - pos) && pos <= p < end
      invariant Undigits(buffer, pos, end) == Resumed(result, shift, Undigits(buffer, p, end))
      decreases end - p
    {
      if p >= |buffer| {
        OutOfBytes(result, shift, buffer, p, end);
        return Err(IndexError);
      }
      var b := buffer[p];
      TakeByte(result, shift, buffer, p, end);
      TopBit(b);
      result := Or(result, Shl(And(b, 0x7f), shift));
      p := p + 1;
      if And(b, 0x80) == 0 {
        UnzigzagIs(result);
        return Ok((Xor(Shr(result, 1), -And(result, 1)), p));
      }
      shift := shift + 7;
      if shift >= 64 {
        OutOfBytes(result, shift, buffer, p, end);
        return Err(ValueError);
      }
    }
  }

  /** Tries one-byte integers first, even ones and odd ones; `~0` is -1. */
  method DecodeVarint3(buffer: seq<Byte>, pos: nat) returns (r: Result<(int, nat), Error>)
    ensures r == Decoding(buffer, pos)
  {
    hide Undigits, And, Or, Shr, Shl, Resumed, Unzigzag;
    ghost var end := pos + 10;
    Unshifted(buffer, pos, end);
    if pos >= |buffer| {
      OutOfBytes(0, 0, buffer, pos, end);
      return Err(IndexError);
    }
    var result: nat := buffer[pos];
    FirstByte(buffer, pos, end);
    if And(result, 0x81) == 0 { return Ok((Shr(result, 1), pos + 1)); }
    if And(result, 0x80) == 0 { return Ok((Xor(Shr(result, 1), -1), pos + 1)); }
    result := And(result, 0x7f);
    var p := pos + 1;
    var shift: nat := 7;
    while true
      invariant result < Pow2(shift) && shift == 7 * (p - pos) && pos < p < end
      invariant Undigits(buffer, pos, end) == Resumed(result, shift, Undigits(buffer, p, end))
      decreases end - p
    {
      if p >= |buffer| {
        OutOfBytes(result, shift, buffer, p, end);
        return Err(IndexError);
      }
      var b := buffer[p];
      TakeByte(result, shift, buffer, p, end);
      TopBit(b);
      result := Or(result, Shl(And(b, 0x7f), shift));
      p := p + 1;
      if And(b, 0x80) == 0 {
        UnzigzagIs(result);
        return Ok((Xor(Shr(result, 1), -And(result, 1)), p));
      }
      shift := shift + 7;
      if shift >= 64 {
        OutOfBytes(result, shift, buffer, p, end);
        return Err(ValueError);
      }
    }
  }

  /** What the three cases of the third decoder's start mean. */
  lemma FirstByte(b: seq<Byte>, pos: nat, end: nat)
    requires pos < |b| && pos < end
    ensures var x := b[pos];
      && (And(x, 0x81) == 0 ==> Undigits(b, pos, end) == Ok((x, pos + 1)) && Unzigzag(x) == Shr(x, 1))
      && (And(x, 0x81) != 0 && And(x, 0x80) == 0 ==>
            Undigits(b, pos, end) == Ok((x, pos + 1)) && Unzigzag(x) == Xor(Shr(x, 1), -1))
      && (And(x, 0x80) != 0 ==>
            0 <= And(x, 0x7f) < Pow2(7) && Undigits(b, pos, end) == Resumed(And(x, 0x7f), 7, Undigits(b, pos + 1, end)))
  {
    hide And, Or, Xor;
    var x := b[pos];
    TopBit(x);
    TopAndLowBit(x);
    LowBits(x);
    XorZero(Shr(x, 1));
    assert Pow2(7) == 128;
  }
}
