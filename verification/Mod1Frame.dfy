/** The MOD1 binary frame: a magic number, a chunk count and length-prefixed chunks. */
module Mod1Frame {
  import opened Prelude

  const MAGIC: seq<byte> := [0x4d, 0x4f, 0x44, 0x31]
  const HEADER_LENGTH: nat := 8
  const CHUNK_LENGTH_BYTES: nat := 4
  const U32_LIMIT: nat := 0x1_0000_0000

  datatype FrameError = Overflow | ShortFrame | BadMagic | TooManyChunks | ChunkOverflow | TrailingBytes

  type Chunks = seq<seq<byte>>

  /** The four bytes of a number below 2^32, most significant first. */
  function U32Bytes(n: nat): (b: seq<byte>)
    requires n < U32_LIMIT
  {
    [n / 0x100_0000, n / 0x1_0000 % 0x100, n / 0x100 % 0x100, n % 0x100]
  }

  function U32Value(b: seq<byte>): nat
    requires |b| == 4
  {
    b[0] as int * 0x100_0000 + b[1] as int * 0x1_0000 + b[2] as int * 0x100 + b[3]
  }

  /** Dividing by 2^16 and by 2^24 is dividing by 2^8 repeatedly. */
  lemma DivideBytewise(n: nat)
    ensures n / 0x1_0000 == n / 0x100 / 0x100
  {
  }

  lemma DivideThrice(n: nat)
    ensures n / 0x100_0000 == n / 0x1_0000 / 0x100
  {
  }

  lemma U32ValueBytes(n: nat)
    requires n < U32_LIMIT
    ensures U32Value(U32Bytes(n)) == n
  {
    DivideBytewise(n);
    DivideThrice(n);
    var q1: int, q2: int, q3: int := n / 0x100, n / 0x1_0000, n / 0x100_0000;
    assert n == q1 * 0x100 + n % 0x100;
    assert q1 == q2 * 0x100 + q1 % 0x100;
    assert q2 == q3 * 0x100 + q2 % 0x100;
  }

  lemma ByteQuotient(high: int, low: byte)
    ensures (high * 0x100 + low as int) / 0x100 == high && (high * 0x100 + low as int) % 0x100 == low as int
  {
  }

  lemma U32BytesValue(b: seq<byte>)
    requires |b| == 4
    ensures U32Value(b) < U32_LIMIT && U32Bytes(U32Value(b)) == b
  {
    var b0: int, b1: int, b2: int := b[0], b[1], b[2];
    var n := U32Value(b);
    DivideBytewise(n);
    DivideThrice(n);
    ByteQuotient(b0 * 0x1_0000 + b1 * 0x100 + b2, b[3]);
    ByteQuotient(b0 * 0x100 + b1, b[2]);
    ByteQuotient(b0, b[1]);
  }

  /** Every count in the frame fits into 32 bits. */
  predicate Fits(chunks: Chunks) {
    |chunks| < U32_LIMIT && ChunksFit(chunks)
  }

  predicate ChunksFit(chunks: Chunks) {
    forall i :: 0 <= i < |chunks| ==> |chunks[i]| < U32_LIMIT
  }

  function Body(chunks: Chunks): seq<byte>
    requires ChunksFit(chunks)
  {
    if chunks == [] then [] else U32Bytes(|chunks[0]|) + chunks[0] + Body(chunks[1..])
  }

  /** What a frame is. */
  function Frame(chunks: Chunks): seq<byte>
    requires Fits(chunks)
  {
    MAGIC + U32Bytes(|chunks|) + Body(chunks)
  }

  /** `compact_value_to_bytes`. */
  method CompactValueToBytes(chunks: Chunks) returns (r: Result<seq<byte>, FrameError>)
    ensures r == if Fits(chunks) then Ok(Frame(chunks)) else Err(Overflow)
  {
    if |chunks| >= U32_LIMIT {
      return Err(Overflow);
    }
    var out := MAGIC + U32Bytes(|chunks|);
    var i := 0;
    while i < |chunks|
      invariant i <= |chunks| && ChunksFit(chunks[..i])
      invariant out == MAGIC + U32Bytes(|chunks|) + Body(chunks[..i])
    {
      if |chunks[i]| >= U32_LIMIT {
        return Err(Overflow);
      }
      assert ChunksFit(chunks[..i + 1]);
      BodySnoc(chunks[..i], chunks[i]);
      assert chunks[..i + 1] == chunks[..i] + [chunks[i]];
      out := out + U32Bytes(|chunks[i]|);
      out := out + chunks[i];
      i := i + 1;
    }
    assert chunks[..i] == chunks;
    return Ok(out);
  }

  lemma {:induction false} BodySnoc(chunks: Chunks, last: seq<byte>)
    requires ChunksFit(chunks) && |last| < U32_LIMIT
    ensures ChunksFit(chunks + [last])
    ensures Body(chunks + [last]) == Body(chunks) + U32Bytes(|last|) + last
  {
    if chunks == [] {
      assert Body([last]) == U32Bytes(|last|) + last + Body([last][1..]);
    } else {
      BodySnoc(chunks[1..], last);
      assert (chunks + [last])[1..] == chunks[1..] + [last];
    }
  }

  /** `read_u32`. */
  method ReadU32(source: seq<byte>, offset: nat) returns (r: Result<nat, FrameError>)
    ensures r == if offset + CHUNK_LENGTH_BYTES > |source| then Err(ShortFrame)
                 else Ok(U32Value(source[offset..offset + CHUNK_LENGTH_BYTES]))
  {
    if offset + CHUNK_LENGTH_BYTES > |source| {
      return Err(ShortFrame);
    }
    return Ok(U32Value([source[offset], source[offset + 1], source[offset + 2], source[offset + 3]]));
  }

  /** The chunks that follow a header announcing `count` of them. */
  function ParseBody(b: seq<byte>, count: nat): Result<Chunks, FrameError> {
    if count == 0 then (if b == [] then Ok([]) else Err(TrailingBytes))
    else if |b| < CHUNK_LENGTH_BYTES then Err(ShortFrame)
    else
      var end := CHUNK_LENGTH_BYTES + U32Value(b[..CHUNK_LENGTH_BYTES]);
      if end > |b| then Err(ChunkOverflow)
      else Prepend([b[CHUNK_LENGTH_BYTES..end]], ParseBody(b[end..], count - 1))
  }

  function Prepend(front: Chunks, r: Result<Chunks, FrameError>): Result<Chunks, FrameError> {
    if r.Ok? then Ok(front + r.value) else r
  }

  /** A frame read without the up-front bound on the chunk count. */
  function DecodeUnguarded(bytes: seq<byte>): Result<Chunks, FrameError> {
    if |bytes| < HEADER_LENGTH then Err(ShortFrame)
    else if bytes[..4] != MAGIC then Err(BadMagic)
    else ParseBody(bytes[HEADER_LENGTH..], U32Value(bytes[4..HEADER_LENGTH]))
  }

  /** The chunk count of the header is more than the rest of the frame has room for. */
  predicate CountExceedsRoom(bytes: seq<byte>)
    requires |bytes| >= HEADER_LENGTH
  {
    U32Value(bytes[4..HEADER_LENGTH]) > (|bytes| - HEADER_LENGTH) / CHUNK_LENGTH_BYTES
  }

  function Decode(bytes: seq<byte>): Result<Chunks, FrameError> {
    if |bytes| >= HEADER_LENGTH && bytes[..4] == MAGIC && CountExceedsRoom(bytes) then Err(TooManyChunks)
    else DecodeUnguarded(bytes)
  }

  /** `compact_value_from_bytes`. */
  method CompactValueFromBytes(bytes: seq<byte>) returns (r: Result<Chunks, FrameError>)
    ensures r == Decode(bytes)
  {
    if |bytes| < HEADER_LENGTH {
      return Err(ShortFrame);
    }
    if bytes[..|MAGIC|] != MAGIC {
      return Err(BadMagic);
    }
    var header := ReadU32(bytes, |MAGIC|);
    var chunkCount := header.value;
    var maxChunkCount := (|bytes| - HEADER_LENGTH) / CHUNK_LENGTH_BYTES;
    if chunkCount > maxChunkCount {
      return Err(TooManyChunks);
    }
    var chunks: Chunks := [];
    var offset := HEADER_LENGTH;
    PrependNothing(ParseBody(bytes[offset..], chunkCount));
    assert Decode(bytes) == ParseBody(bytes[offset..], chunkCount);
    for i := 0 to chunkCount
      invariant HEADER_LENGTH <= offset <= |bytes|
      invariant Decode(bytes) == Prepend(chunks, ParseBody(bytes[offset..], chunkCount - i))
    {
      ParseBodyAt(bytes, offset, chunkCount - i);
      var length := ReadU32(bytes, offset);
      if length.Err? {
        return Err(length.error);
      }
      var start := offset + CHUNK_LENGTH_BYTES;
      if start + length.value > |bytes| {
        return Err(ChunkOverflow);
      }
      var chunk := bytes[start..start + length.value];
      PrependPrepend(chunks, chunk, ParseBody(bytes[start + length.value..], chunkCount - i - 1));
      chunks := chunks + [chunk];
      offset := start + length.value;
    }
    if offset != |bytes| {
      return Err(TrailingBytes);
    }
    assert chunks + [] == chunks;
    return Ok(chunks);
  }

  /** One round of the chunk loop, in terms of offsets. */
  lemma ParseBodyAt(bytes: seq<byte>, offset: nat, count: nat)
    requires offset <= |bytes| && count > 0
    ensures ParseBody(bytes[offset..], count) ==
            if offset + 4 > |bytes| then Err(ShortFrame)
            else
              var end := offset + 4 + U32Value(bytes[offset..offset + 4]);
              if end > |bytes| then Err(ChunkOverflow)
              else Prepend([bytes[offset + 4..end]], ParseBody(bytes[end..], count - 1))
  {
    var rest := bytes[offset..];
    if offset + 4 <= |bytes| {
      assert rest[..4] == bytes[offset..offset + 4];
      var length := U32Value(rest[..4]);
      if offset + 4 + length <= |bytes| {
        assert rest[4..4 + length] == bytes[offset + 4..offset + 4 + length];
        assert rest[4 + length..] == bytes[offset + 4 + length..];
      }
    }
  }

  lemma PrependNothing(r: Result<Chunks, FrameError>)
    ensures Prepend([], r) == r
  {
    if r.Ok? {
      assert [] + r.value == r.value;
    }
  }

  lemma PrependPrepend(front: Chunks, chunk: seq<byte>, r: Result<Chunks, FrameError>)
    ensures Prepend(front, Prepend([chunk], r)) == Prepend(front + [chunk], r)
  {
    if r.Ok? {
      assert front + ([chunk] + r.value) == (front + [chunk]) + r.value;
    }
  }

  lemma {:induction false} ParseBodyOfBody(chunks: Chunks)
    requires ChunksFit(chunks)
    ensures ParseBody(Body(chunks), |chunks|) == Ok(chunks)
  {
    if chunks != [] {
      ParseBodyOfBody(chunks[1..]);
      U32ValueBytes(|chunks[0]|);
      var b, end := Body(chunks), 4 + |chunks[0]|;
      assert b[..4] == U32Bytes(|chunks[0]|);
      assert b[4..end] == chunks[0];
      assert b[end..] == Body(chunks[1..]);
      assert chunks == [chunks[0]] + chunks[1..];
    }
  }

  lemma BodyCons(chunk: seq<byte>, tail: Chunks)
    requires |chunk| < U32_LIMIT && ChunksFit(tail)
    ensures ChunksFit([chunk] + tail) && Body([chunk] + tail) == U32Bytes(|chunk|) + chunk + Body(tail)
  {
    assert ([chunk] + tail)[1..] == tail;
  }

  lemma ThreeSlices(b: seq<byte>, length: nat)
    requires 4 + length <= |b|
    ensures b == b[..4] + b[4..4 + length] + b[4 + length..]
  {
  }

  lemma {:induction false} BodyOfParseBody(b: seq<byte>, count: nat)
    requires ParseBody(b, count).Ok?
    ensures var chunks := ParseBody(b, count).value;
            |chunks| == count && ChunksFit(chunks) && Body(chunks) == b && 4 * count <= |b|
  {
    if count > 0 {
      var length := U32Value(b[..4]);
      var chunk, rest := b[4..4 + length], b[4 + length..];
      BodyOfParseBody(rest, count - 1);
      U32BytesValue(b[..4]);
      BodyCons(chunk, ParseBody(rest, count - 1).value);
      ThreeSlices(b, length);
    }
  }

  /** The frame codec is a bijection: a byte string decodes to a chunk list exactly when it is
      the frame of that list. */
  lemma DecodeMeaning(bytes: seq<byte>, chunks: Chunks)
    ensures Decode(bytes) == Ok(chunks) <==> Fits(chunks) && Frame(chunks) == bytes
  {
    if Decode(bytes) == Ok(chunks) {
      BodyOfParseBody(bytes[8..], U32Value(bytes[4..8]));
      U32BytesValue(bytes[4..8]);
      assert bytes == bytes[..4] + bytes[4..8] + bytes[8..];
    }
    if Fits(chunks) && Frame(chunks) == bytes {
      FrameDecodes(chunks);
    }
  }

  lemma FrameDecodes(chunks: Chunks)
    requires Fits(chunks)
    ensures Decode(Frame(chunks)) == Ok(chunks)
  {
    var bytes := Frame(chunks);
    ParseBodyOfBody(chunks);
    U32ValueBytes(|chunks|);
    assert bytes[..4] == MAGIC && bytes[4..8] == U32Bytes(|chunks|) && bytes[8..] == Body(chunks);
    BodyOfParseBody(bytes[8..], |chunks|);
  }

  /** The bound on the chunk count rejects nothing that the chunk loop would accept. */
  lemma CountGuardIsHarmless(bytes: seq<byte>, chunks: Chunks)
    ensures Decode(bytes) == Ok(chunks) <==> DecodeUnguarded(bytes) == Ok(chunks)
  {
    if DecodeUnguarded(bytes) == Ok(chunks) {
      BodyOfParseBody(bytes[8..], U32Value(bytes[4..8]));
    }
  }

  /** The header of a frame: `MOD1` and the number of chunks, most significant byte first. */
  lemma FrameHeader(chunks: Chunks)
    requires Fits(chunks)
    ensures var f := Frame(chunks);
            && |f| >= 8 && f[..4] == [77, 79, 68, 49]
            && f[4] as int * 16_777_216 + f[5] as int * 65_536 + f[6] as int * 256 + f[7] as int == |chunks|
  {
    U32ValueBytes(|chunks|);
    var f := Frame(chunks);
    assert f[..4] == MAGIC && f[4..8] == U32Bytes(|chunks|);
    assert f[4] == f[4..8][0] && f[5] == f[4..8][1] && f[6] == f[4..8][2] && f[7] == f[4..8][3];
  }

  /** A chunk in a frame body: its length in four bytes, most significant first, and its bytes. */
  lemma BodyOfChunk(chunk: seq<byte>, tail: Chunks)
    requires |chunk| < U32_LIMIT && ChunksFit(tail)
    ensures ChunksFit([chunk] + tail)
    ensures var b := Body([chunk] + tail);
            && |b| >= 4 + |chunk| && b[4..4 + |chunk|] == chunk && b[4 + |chunk|..] == Body(tail)
            && b[0] as int * 16_777_216 + b[1] as int * 65_536 + b[2] as int * 256 + b[3] as int == |chunk|
  {
    BodyCons(chunk, tail);
    U32ValueBytes(|chunk|);
    var b := Body([chunk] + tail);
    assert b[0] == U32Bytes(|chunk|)[0] && b[1] == U32Bytes(|chunk|)[1]
        && b[2] == U32Bytes(|chunk|)[2] && b[3] == U32Bytes(|chunk|)[3];
  }

  /** Why the header of a byte string is refused, in the order of the checks. */
  lemma HeaderErrors(bytes: seq<byte>)
    ensures |bytes| < 8 ==> Decode(bytes) == Err(ShortFrame)
    ensures |bytes| >= 8 && bytes[..4] != [77, 79, 68, 49] ==> Decode(bytes) == Err(BadMagic)
    ensures |bytes| >= 8 && bytes[..4] == [77, 79, 68, 49]
            && bytes[4] as int * 16_777_216 + bytes[5] as int * 65_536 + bytes[6] as int * 256 + bytes[7] as int
               > (|bytes| - 8) / 4 ==>
              Decode(bytes) == Err(TooManyChunks)
  {
  }

  lemma SlicesOf(a: seq<byte>, b: seq<byte>, c: seq<byte>, d: seq<byte>)
    requires |a| == 4
    ensures var t := a + b + c + d;
            |t| == 4 + |b| + |c| + |d| && t[..4] == a && t[4..4 + |b|] == b && t[4 + |b|..] == c + d
  {
  }

  lemma {:induction false} BodyWithTail(chunks: Chunks, extra: seq<byte>)
    requires ChunksFit(chunks) && extra != []
    ensures ParseBody(Body(chunks) + extra, |chunks|) == Err(TrailingBytes)
  {
    if chunks != [] {
      BodyWithTail(chunks[1..], extra);
      U32ValueBytes(|chunks[0]|);
      SlicesOf(U32Bytes(|chunks[0]|), chunks[0], Body(chunks[1..]), extra);
      ParseOne(Body(chunks) + extra, chunks[0], Body(chunks[1..]) + extra, |chunks|);
    } else {
      assert Body(chunks) + extra == extra;
    }
  }

  lemma ParseOne(b: seq<byte>, chunk: seq<byte>, rest: seq<byte>, count: nat)
    requires count > 0 && |b| >= 4 && |chunk| < U32_LIMIT && U32Value(b[..4]) == |chunk|
    requires |b| >= 4 + |chunk| && b[4 + |chunk|..] == rest && ParseBody(rest, count - 1).Err?
    ensures ParseBody(b, count) == ParseBody(rest, count - 1)
  {
  }

  lemma {:induction false} BodyLength(chunks: Chunks)
    requires ChunksFit(chunks)
    ensures |Body(chunks)| >= 4 * |chunks|
  {
    if chunks != [] {
      BodyLength(chunks[1..]);
    }
  }

  /** A frame with bytes behind it is refused for them. */
  lemma TrailingBytesRefused(chunks: Chunks, extra: seq<byte>)
    requires Fits(chunks) && extra != []
    ensures Decode(Frame(chunks) + extra) == Err(TrailingBytes)
  {
    var bytes := Frame(chunks) + extra;
    U32ValueBytes(|chunks|);
    BodyLength(chunks);
    BodyWithTail(chunks, extra);
    assert bytes[..4] == MAGIC && bytes[4..8] == U32Bytes(|chunks|) && bytes[8..] == Body(chunks) + extra;
  }

}
