/**
 The xerial framing of snappy (codec.py): a header, then blocks that are compressed one by one and prefixed by
 their size. Compression itself is a parameter.
 */
module Xerial {
  import opened Wrappers
  import opened Bytes

  datatype Codec = Codec(compress: seq<Byte> -> seq<Byte>, decompress: seq<Byte> -> Option<seq<Byte>>)

  /** Packing a size of 2^31 or more, or unpacking one from less than four bytes, raises; so may decompressing. */
  datatype Error = StructError | DecompressError | CursorMovesBack

  const Magic: seq<Byte> := [130, 83, 78, 65, 80, 80, 89, 0]
  const VersionAndCompat: seq<Byte> := [0, 0, 0, 1, 0, 0, 0, 1]

  ghost predicate Lossless(codec: Codec) { forall b :: codec.decompress(codec.compress(b)) == Some(b) }

  // ---------- encoding ----------

  function ChunkEnd(p: seq<Byte>, size: nat): (n: nat)
    ensures n <= |p| && n <= size
  {
    if size < |p| then size else |p|
  }

  function EncodeBlocks(codec: Codec, p: seq<Byte>, size: nat): Result<seq<Byte>, Error>
    requires size > 0
    decreases |p|
  {
    if p == [] then Ok([])
    else
      var block := codec.compress(p[..ChunkEnd(p, size)]);
      if |block| >= TWO_TO_31 then Err(StructError)
      else match EncodeBlocks(codec, p[ChunkEnd(p, size)..], size)
        case Err(e) => Err(e)
        case Ok(rest) => Ok(EncodeInt32(|block|) + block + rest)
  }

  function Encoded(codec: Codec, p: seq<Byte>, size: nat): Result<seq<Byte>, Error>
    requires size > 0
  {
    match EncodeBlocks(codec, p, size)
    case Err(e) => Err(e)
    case Ok(blocks) => Ok(Magic + VersionAndCompat + blocks)
  }

  lemma Regroup(a: seq<Byte>, b: seq<Byte>, c: seq<Byte>, d: seq<Byte>)
    ensures a + (b + c + d) == (a + b + c) + d
  {
  }

  method SnappyEncode(codec: Codec, payload: seq<Byte>, size: nat) returns (r: Result<seq<Byte>, Error>)
    requires size > 0
    ensures r == Encoded(codec, payload, size)
  {
    hide EncodeBlocks;
    var out := Magic + VersionAndCompat;
    var i := 0;
    ghost var whole := EncodeBlocks(codec, payload, size);
    assert payload[0..] == payload;
    while i < |payload|
      invariant 0 <= i <= |payload|
      invariant var rest := EncodeBlocks(codec, payload[i..], size);
        if whole.Ok? then rest.Ok? && Magic + VersionAndCompat + whole.value == out + rest.value else rest == whole
      decreases |payload| - i
    {
      var n := if size < |payload| - i then size else |payload| - i;
      var block := codec.compress(payload[i..i + n]);
      EncodeStep(codec, payload, i, n, size);
      if |block| >= TWO_TO_31 { return Err(StructError); }
      ghost var rest := EncodeBlocks(codec, payload[i + n..], size);
      if rest.Ok? { Regroup(out, EncodeInt32(|block|), block, rest.value); }
      out := out + EncodeInt32(|block|) + block;
      i := i + n;
    }
    EncodeNothing(codec, payload[i..], size);
    assert out + [] == out;
    return Ok(out);
  }

  lemma EncodeNothing(codec: Codec, p: seq<Byte>, size: nat)
    requires size > 0 && |p| == 0
    ensures EncodeBlocks(codec, p, size) == Ok([])
  {
  }

  lemma EncodeStep(codec: Codec, payload: seq<Byte>, i: nat, n: nat, size: nat)
    requires size > 0 && i < |payload| && n == (if size < |payload| - i then size else |payload| - i)
    ensures var block, rest := codec.compress(payload[i..i + n]), EncodeBlocks(codec, payload[i + n..], size);
      EncodeBlocks(codec, payload[i..], size) ==
        if |block| >= TWO_TO_31 then Err(StructError)
        else if rest.Err? then rest
        else Ok(EncodeInt32(|block|) + block + rest.value)
  {
    var p := payload[i..];
    assert p[..n] == payload[i..i + n] && p[n..] == payload[i + n..];
  }

  // ---------- decoding ----------

  /** Version and compatibility are not looked at. */
  predicate Detected(payload: seq<Byte>) { |payload| > 16 && payload[..8] == Magic }

  /** The header: 0x82, the name, a zero, and 1 twice as big-endian 32-bit integers; the first eight bytes make out the format. */
  lemma HeaderMeans(codec: Codec, payload: seq<Byte>, size: nat)
    requires size > 0
    ensures Encoded(codec, payload, size).Ok? ==>
              Encoded(codec, payload, size).value[..16] == [0x82, 0x53, 0x4e, 0x41, 0x50, 0x50, 0x59, 0, 0, 0, 0, 1, 0, 0, 0, 1]
    ensures Detected(payload) <==> |payload| > 16 && payload[..8] == [0x82, 0x53, 0x4e, 0x41, 0x50, 0x50, 0x59, 0]
  {
    hide EncodeBlocks;
  }

  /** `b[i:j]`, which may reach beyond the end or be empty. */
  function Slice(b: seq<Byte>, i: nat, j: nat): seq<Byte> {
    if j <= i || |b| <= i then [] else if j <= |b| then b[i..j] else b[i..]
  }

  /** The loop from `cursor` on: what it has written at the end, and where the cursor then stands. */
  function DecodeBlocks(codec: Codec, b: seq<Byte>, cursor: nat, out: seq<Byte>): Result<(seq<Byte>, nat), Error>
    decreases |b| - cursor
  {
    if cursor >= |b| then Ok((out, cursor))
    else if cursor + 4 > |b| then Err(StructError)
    else
      var size := DecodeInt32(b[cursor..cursor + 4]);
      if size <= -4 then Err(CursorMovesBack)
      else match codec.decompress(Slice(b, cursor + 4, cursor + 4 + size))
        case None => Err(DecompressError)
        case Some(d) => DecodeBlocks(codec, b, cursor + 4 + size, out + d)
  }

  function Decoded(codec: Codec, payload: seq<Byte>): Result<seq<Byte>, Error> {
    if Detected(payload) then
      match DecodeBlocks(codec, payload[16..], 0, [])
      case Err(e) => Err(e)
      case Ok(r) => Ok(r.0)
    else match codec.decompress(payload)
      case None => Err(DecompressError)
      case Some(d) => Ok(d)
  }

  method SnappyDecode(codec: Codec, payload: seq<Byte>) returns (r: Result<seq<Byte>, Error>)
    ensures r == Decoded(codec, payload)
  {
    if !(|payload| > 16 && payload[..8] == Magic) {
      var d := codec.decompress(payload);
      return if d.Some? then Ok(d.value) else Err(DecompressError);
    }
    var out: seq<Byte> := [];
    var b := payload[16..];
    var cursor: nat := 0;
    while cursor < |b|
      invariant DecodeBlocks(codec, b, 0, []) == DecodeBlocks(codec, b, cursor, out)
      decreases |b| - cursor
    {
      if cursor + 4 > |b| { return Err(StructError); }
      var size := DecodeInt32(b[cursor..cursor + 4]);
      if size <= -4 { return Err(CursorMovesBack); }
      cursor := cursor + 4;
      var end := cursor + size;
      var d := codec.decompress(Slice(b, cursor, end));
      if d.None? { return Err(DecompressError); }
      out := out + d.value;
      cursor := end;
    }
    return Ok(out);
  }

  // ---------- theorems ----------

  /** Decoding the blocks gives the payload back, and the cursor lands exactly on the end. */
  lemma {:induction false} BlocksRoundTrip(codec: Codec, p: seq<Byte>, size: nat, b: seq<Byte>, cursor: nat, out: seq<Byte>)
    requires Lossless(codec) && size > 0 && cursor <= |b|
    requires EncodeBlocks(codec, p, size) == Ok(b[cursor..])
    ensures DecodeBlocks(codec, b, cursor, out) == Ok((out + p, |b|))
    decreases |p|
  {
    hide DecodeInt32, EncodeInt32;
    if p == [] {
      assert |b[cursor..]| == 0 && out + p == out;
    } else {
      var n := ChunkEnd(p, size);
      var block := codec.compress(p[..n]);
      var rest := EncodeBlocks(codec, p[n..], size).value;
      var head := EncodeInt32(|block|);
      DecodeEncodeInt32(|block|);
      Cut(b, cursor, head, block, rest);
      BlocksRoundTrip(codec, p[n..], size, b, cursor + 4 + |block|, out + p[..n]);
      assert out + p[..n] + p[n..] == out + p;
    }
  }

  lemma Cut(b: seq<Byte>, cursor: nat, head: seq<Byte>, block: seq<Byte>, rest: seq<Byte>)
    requires cursor <= |b| && b[cursor..] == head + block + rest && |head| == 4
    ensures cursor + 4 + |block| <= |b|
    ensures b[cursor..cursor + 4] == head && b[cursor + 4 + |block|..] == rest
    ensures Slice(b, cursor + 4, cursor + 4 + |block|) == block
  {
    var t, n := b[cursor..], 4 + |block|;
    assert b[cursor..cursor + 4] == t[..4] && b[cursor + n..] == t[n..] && b[cursor + 4..cursor + n] == t[4..n];
    assert t[..4] == head && t[n..] == rest && t[4..n] == block;
  }

  /** Whatever stands for version and compatibility, the blocks of a payload that is not empty decode to it. */
  lemma AnyVersionDecodes(codec: Codec, p: seq<Byte>, size: nat, version: seq<Byte>, blocks: seq<Byte>)
    requires Lossless(codec) && size > 0 && p != [] && |version| == 8 && EncodeBlocks(codec, p, size) == Ok(blocks)
    ensures Decoded(codec, Magic + version + blocks) == Ok(p)
    ensures DecodeBlocks(codec, blocks, 0, []) == Ok((p, |blocks|))
  {
    var payload := Magic + version + blocks;
    assert blocks[0..] == blocks && [] + p == p;
    BlocksRoundTrip(codec, p, size, blocks, 0, []);
    hide DecodeBlocks;
    assert |blocks| > 0;
    assert payload[16..] == blocks && payload[..8] == Magic;
  }

  lemma EncodedEmpty(codec: Codec, size: nat)
    requires size > 0
    ensures Encoded(codec, [], size) == Ok(Magic + VersionAndCompat) && !Detected(Magic + VersionAndCompat)
  {
    assert Magic + VersionAndCompat + [] == Magic + VersionAndCompat;
  }

  /**
   What is encoded decodes to itself, for any block size and any lossless codec, if and only if it is not empty
   or the codec happens to take the bare header for nothing: a header without blocks is not detected.
   */
  lemma RoundTripIffNotEmpty(codec: Codec, p: seq<Byte>, size: nat)
    requires Lossless(codec) && size > 0 && Encoded(codec, p, size).Ok?
    ensures Decoded(codec, Encoded(codec, p, size).value) == Ok(p) <==>
              p != [] || codec.decompress(Magic + VersionAndCompat) == Some([])
  {
    if p != [] {
      AnyVersionDecodes(codec, p, size, VersionAndCompat, EncodeBlocks(codec, p, size).value);
    } else {
      EncodedEmpty(codec, size);
    }
  }

  /** Encoding fails only for a block that does not fit its size field. */
  lemma {:induction false} EncodesWhenBlocksFit(codec: Codec, p: seq<Byte>, size: nat)
    requires size > 0 && forall c :: |c| <= size ==> |codec.compress(c)| < TWO_TO_31
    ensures EncodeBlocks(codec, p, size).Ok?
    decreases |p|
  {
    if p != [] { EncodesWhenBlocksFit(codec, p[ChunkEnd(p, size)..], size); }
  }
}
