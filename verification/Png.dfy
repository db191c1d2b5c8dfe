/** `validate_png_bytes`: the chunk loop, and the grammar it decides (sections 3.1, 3.2,
    4.1.1 and 4.1.4 of RFC 2083). */
module Png {
  import opened Bytes

  /** `crc32(data, start)`. */
  type Crc = (Bytes, int) -> int

  datatype Chunk = Chunk(kind: Bytes, payload: Bytes)

  const SIGNATURE: Bytes := [0x89, 0x50, 0x4E, 0x47, 0x0D, 0x0A, 0x1A, 0x0A]
  const IHDR: Bytes := [0x49, 0x48, 0x44, 0x52]
  const IEND: Bytes := [0x49, 0x45, 0x4E, 0x44]
  const THUMBNAIL_LIMIT := 8 * 1024 * 1024

  function CrcOf(crc: Crc, kind: Bytes, payload: Bytes): Word {
    crc(payload, crc(kind, 0)) % TWO_TO_32
  }

  // ----- the grammar -----

  predicate ChunkOk(c: Chunk) {
    |c.kind| == 4 && |c.payload| < TWO_TO_32
  }

  function Encode(crc: Crc, c: Chunk): (b: Bytes)
    requires ChunkOk(c)
    ensures |b| == 12 + |c.payload|
  {
    BigEndian(|c.payload|) + c.kind + c.payload + BigEndian(CrcOf(crc, c.kind, c.payload))
  }

  predicate AllOk(chunks: seq<Chunk>) {
    forall i | 0 <= i < |chunks| :: ChunkOk(chunks[i])
  }

  function EncodeAll(crc: Crc, chunks: seq<Chunk>): Bytes
    requires AllOk(chunks)
  {
    if chunks == [] then [] else Encode(crc, chunks[0]) + EncodeAll(crc, chunks[1..])
  }

  predicate HeaderOk(c: Chunk) {
    && c.kind == IHDR && |c.payload| == 13
    && 1 <= FromBigEndian(c.payload[..4]) <= 8192
    && 1 <= FromBigEndian(c.payload[4..8]) <= 8192
  }

  /** The chunks after the header: none of them a header, and only the last one an end,
      which is empty. */
  predicate BodyOk(chunks: seq<Chunk>) {
    && chunks != []
    && chunks[|chunks| - 1] == Chunk(IEND, [])
    && forall i | 0 <= i < |chunks| - 1 :: chunks[i].kind != IHDR && chunks[i].kind != IEND
  }

  predicate ImageOk(chunks: seq<Chunk>) {
    chunks != [] && HeaderOk(chunks[0]) && BodyOk(chunks[1..])
  }

  /** A signature, a header, any other chunks, and an end, all with their checksums. */
  ghost predicate IsPng(crc: Crc, data: Bytes) {
    exists chunks | AllOk(chunks) :: ImageOk(chunks) && data == SIGNATURE + EncodeAll(crc, chunks)
  }

  // ----- reading one chunk -----

  /** The chunk at the front, if it is whole and its checksum is right. */
  predicate StartsWithChunk(crc: Crc, rest: Bytes) {
    && |rest| >= 12
    && var n := FromBigEndian(rest[..4]);
    && 12 + n <= |rest|
    && FromBigEndian(rest[8 + n..12 + n]) == CrcOf(crc, rest[4..8], rest[8..8 + n])
  }

  function FirstChunk(crc: Crc, rest: Bytes): (c: Chunk)
    requires StartsWithChunk(crc, rest)
    ensures ChunkOk(c) && 12 + |c.payload| <= |rest|
  {
    Chunk(rest[4..8], rest[8..8 + FromBigEndian(rest[..4])])
  }

  lemma SplitChunk(crc: Crc, rest: Bytes)
    requires StartsWithChunk(crc, rest)
    ensures var c := FirstChunk(crc, rest);
            rest == Encode(crc, c) + rest[12 + |c.payload|..]
  {
    hide FromBigEndian, BigEndian, CrcOf;
    var n := FromBigEndian(rest[..4]);
    BigEndianRoundTrip(n, rest[..4]);
    BigEndianRoundTrip(n, rest[8 + n..12 + n]);
    assert rest == rest[..4] + rest[4..8] + rest[8..8 + n] + rest[8 + n..12 + n] + rest[12 + n..];
  }

  lemma ReadChunk(crc: Crc, c: Chunk, tail: Bytes)
    requires ChunkOk(c)
    ensures var rest := Encode(crc, c) + tail;
            StartsWithChunk(crc, rest) && FirstChunk(crc, rest) == c && rest[12 + |c.payload|..] == tail
  {
    hide FromBigEndian, BigEndian, CrcOf;
    var rest, n := Encode(crc, c) + tail, |c.payload|;
    BigEndianRoundTrip(n, BigEndian(n));
    var sum := CrcOf(crc, c.kind, c.payload);
    BigEndianRoundTrip(sum, BigEndian(sum));
    assert rest[..4] == BigEndian(n) && rest[4..8] == c.kind && rest[8..8 + n] == c.payload;
    assert rest[8 + n..12 + n] == BigEndian(sum);
  }

  /** Bytes decompose into chunks in at most one way. */
  lemma {:induction false} ChunksAreUnique(crc: Crc, a: seq<Chunk>, b: seq<Chunk>)
    requires AllOk(a) && AllOk(b) && EncodeAll(crc, a) == EncodeAll(crc, b)
    ensures a == b
  {
    hide Encode, StartsWithChunk, FirstChunk;
    if a != [] && b != [] {
      ReadChunk(crc, a[0], EncodeAll(crc, a[1..]));
      ReadChunk(crc, b[0], EncodeAll(crc, b[1..]));
      ChunksAreUnique(crc, a[1..], b[1..]);
      assert a == [a[0]] + a[1..] && b == [b[0]] + b[1..];
    }
  }

  // ----- what the loop decides -----

  /** The rest of the file is accepted by the loop. */
  predicate Accepts(crc: Crc, rest: Bytes, seenHeader: bool)
    decreases |rest|
  {
    StartsWithChunk(crc, rest) &&
    var c := FirstChunk(crc, rest);
    var tail := rest[12 + |c.payload|..];
    if !seenHeader then HeaderOk(c) && Accepts(crc, tail, true)
    else if c.kind == IHDR then false
    else if c.kind == IEND then c.payload == [] && tail == []
    else Accepts(crc, tail, true)
  }

  predicate Grammar(chunks: seq<Chunk>, seenHeader: bool) {
    if seenHeader then BodyOk(chunks) else ImageOk(chunks)
  }

  lemma {:induction false} GrammarAccepted(crc: Crc, chunks: seq<Chunk>, seenHeader: bool)
    requires AllOk(chunks) && Grammar(chunks, seenHeader)
    ensures Accepts(crc, EncodeAll(crc, chunks), seenHeader)
    decreases |chunks|
  {
    hide StartsWithChunk, FirstChunk, Encode, HeaderOk;
    ReadChunk(crc, chunks[0], EncodeAll(crc, chunks[1..]));
    if !seenHeader {
      GrammarAccepted(crc, chunks[1..], true);
    } else if |chunks| > 1 {
      assert chunks[1..][|chunks| - 2] == chunks[|chunks| - 1];
      GrammarAccepted(crc, chunks[1..], true);
    }
  }

  lemma {:induction false} AcceptedIsGrammar(crc: Crc, rest: Bytes, seenHeader: bool) returns (chunks: seq<Chunk>)
    requires Accepts(crc, rest, seenHeader)
    ensures AllOk(chunks) && Grammar(chunks, seenHeader) && rest == EncodeAll(crc, chunks)
    decreases |rest|
  {
    hide StartsWithChunk, FirstChunk, Encode, HeaderOk;
    var c := FirstChunk(crc, rest);
    var tail := rest[12 + |c.payload|..];
    SplitChunk(crc, rest);
    if seenHeader && c.kind == IEND {
      chunks := [c];
      assert EncodeAll(crc, chunks[1..]) == [];
    } else {
      var more := AcceptedIsGrammar(crc, tail, true);
      chunks := [c] + more;
      assert chunks[1..] == more;
    }
  }

  lemma AcceptsExactly(crc: Crc, data: Bytes)
    requires |data| >= 8 && data[..8] == SIGNATURE
    ensures Accepts(crc, data[8..], false) <==> IsPng(crc, data)
  {
    hide Accepts, ImageOk, BodyOk;
    assert data == SIGNATURE + data[8..];
    if Accepts(crc, data[8..], false) {
      var chunks := AcceptedIsGrammar(crc, data[8..], false);
      assert ImageOk(chunks);
    }
    if IsPng(crc, data) {
      var chunks :| AllOk(chunks) && ImageOk(chunks) && data == SIGNATURE + EncodeAll(crc, chunks);
      GrammarAccepted(crc, chunks, false);
      assert data[8..] == EncodeAll(crc, chunks);
    }
  }

  /** `validate_png_bytes`. */
  method ValidatePng(crc: Crc, data: Bytes) returns (valid: bool)
    ensures valid <==> |data| <= THUMBNAIL_LIMIT && IsPng(crc, data)
  {
    hide IsPng, CrcOf, FromBigEndian, HeaderOk;
    if data == [] || |data| > THUMBNAIL_LIMIT {
      EmptyIsNoPng(crc);
      return false;
    }
    if !(SIGNATURE <= data) {
      PngHasSignature(crc, data);
      return false;
    }
    AcceptsExactly(crc, data);
    var offset := 8;
    var seenHeader := false;
    while offset < |data|
      invariant 8 <= offset <= |data|
      invariant Accepts(crc, data[8..], false) == Accepts(crc, data[offset..], seenHeader)
      decreases |data| - offset
    {
      if offset + 12 > |data| { return false; }
      ghost var rest := data[offset..];
      var n := FromBigEndian(data[offset..offset + 4]);
      assert rest[..4] == data[offset..offset + 4];
      var kind := data[offset + 4..offset + 8];
      var end := offset + 12 + n;
      if end > |data| { return false; }
      var payload := data[offset + 8..offset + 8 + n];
      assert rest[4..8] == kind && rest[8..8 + n] == payload;
      var stored := FromBigEndian(data[offset + 8 + n..end]);
      assert rest[8 + n..12 + n] == data[offset + 8 + n..end];
      if stored != CrcOf(crc, kind, payload) { return false; }
      assert rest[12 + n..] == data[end..];
      if !seenHeader {
        if kind != IHDR || n != 13 {
          HeaderShape(Chunk(kind, payload));
          return false;
        }
        var width, height := FromBigEndian(payload[..4]), FromBigEndian(payload[4..8]);
        HeaderDimensions(Chunk(kind, payload));
        if !(1 <= width <= 8192) || !(1 <= height <= 8192) { return false; }
        seenHeader := true;
      } else if kind == IHDR {
        return false;
      }
      if kind == IEND {
        return n == 0 && end == |data|;
      }
      offset := end;
    }
    return false;
  }

  lemma EmptyIsNoPng(crc: Crc)
    ensures !IsPng(crc, [])
  {
  }

  lemma PngHasSignature(crc: Crc, data: Bytes)
    ensures IsPng(crc, data) ==> SIGNATURE <= data
  {
  }

  lemma HeaderShape(c: Chunk)
    ensures HeaderOk(c) ==> c.kind == IHDR && |c.payload| == 13
  {
  }

  lemma HeaderDimensions(c: Chunk)
    requires c.kind == IHDR && |c.payload| == 13
    ensures HeaderOk(c) <==> 1 <= FromBigEndian(c.payload[..4]) <= 8192 && 1 <= FromBigEndian(c.payload[4..8]) <= 8192
  {
  }
}
