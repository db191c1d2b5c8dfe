/** `_parse_glb_json` and `validate_vrm1_bytes`: the chunk loop over a binary glTF file, and
    the framing it decides (section 4.4 of the glTF 2.0 specification). */
module Glb {
  import opened Basics
  import opened Bytes

  /** The parts of the glTF document the program looks at. */
  datatype Document = Document(assetVersion: Option<string>, extensionsUsed: Option<seq<string>>, vrmSpec: Option<Option<string>>)

  /** `_json_object`: None where it raises. */
  type Parse = Bytes -> Option<Document>

  datatype Chunk = Chunk(kind: Word, payload: Bytes)

  const MAGIC: Bytes := [0x67, 0x6C, 0x54, 0x46]
  const JSON: Word := 0x4E4F534A
  const BIN: Word := 0x004E4942
  const AVATAR_LIMIT := 192 * 1024 * 1024

  // ----- the framing -----

  predicate ChunkOk(c: Chunk) {
    |c.payload| < TWO_TO_32
  }

  predicate AllOk(chunks: seq<Chunk>) {
    forall i | 0 <= i < |chunks| :: ChunkOk(chunks[i])
  }

  function Encode(c: Chunk): (b: Bytes)
    requires ChunkOk(c)
    ensures |b| == 8 + |c.payload|
  {
    LittleEndian(|c.payload|) + LittleEndian(c.kind) + c.payload
  }

  function EncodeAll(chunks: seq<Chunk>): Bytes
    requires AllOk(chunks)
  {
    if chunks == [] then [] else Encode(chunks[0]) + EncodeAll(chunks[1..])
  }

  function Header(length: Word): (b: Bytes)
    ensures |b| == 12
  {
    MAGIC + LittleEndian(2) + LittleEndian(length)
  }

  /** A header with the true length, one JSON chunk, then binary chunks only. */
  predicate Framed(data: Bytes, chunks: seq<Chunk>)
    requires AllOk(chunks)
  {
    && |data| < TWO_TO_32
    && data == Header(|data|) + EncodeAll(chunks)
    && chunks != [] && chunks[0].kind == JSON
    && forall i | 0 < i < |chunks| :: chunks[i].kind == BIN
  }

  /** `rstrip(b" \t\r\n\x00")`. */
  function Stripped(b: Bytes): Bytes {
    if b != [] && b[|b| - 1] in [0x20, 0x09, 0x0D, 0x0A, 0x00] then Stripped(b[..|b| - 1]) else b
  }

  /** The document of a framed file, if it parses and is glTF 2.0. */
  function DocumentOf(parse: Parse, json: Bytes): Option<Document> {
    var d := parse(Stripped(json));
    if d.Some? && d.value.assetVersion == Some("2.0") then d else None
  }

  ghost predicate IsGlb(data: Bytes) {
    exists chunks | AllOk(chunks) :: Framed(data, chunks)
  }

  // ----- reading one chunk -----

  predicate StartsWithChunk(rest: Bytes) {
    |rest| >= 8 && 8 + FromLittleEndian(rest[..4]) <= |rest|
  }

  function FirstChunk(rest: Bytes): (c: Chunk)
    requires StartsWithChunk(rest)
    ensures ChunkOk(c) && 8 + |c.payload| <= |rest|
  {
    Chunk(FromLittleEndian(rest[4..8]), rest[8..8 + FromLittleEndian(rest[..4])])
  }

  lemma SplitChunk(rest: Bytes)
    requires StartsWithChunk(rest)
    ensures var c := FirstChunk(rest);
            rest == Encode(c) + rest[8 + |c.payload|..]
  {
    hide FromLittleEndian, LittleEndian;
    var n := FromLittleEndian(rest[..4]);
    LittleEndianRoundTrip(n, rest[..4]);
    LittleEndianRoundTrip(n, rest[4..8]);
    assert rest == rest[..4] + rest[4..8] + rest[8..8 + n] + rest[8 + n..];
  }

  lemma ReadChunk(c: Chunk, tail: Bytes)
    requires ChunkOk(c)
    ensures var rest := Encode(c) + tail;
            StartsWithChunk(rest) && FirstChunk(rest) == c && rest[8 + |c.payload|..] == tail
  {
    hide FromLittleEndian, LittleEndian;
    var rest, n := Encode(c) + tail, |c.payload|;
    LittleEndianRoundTrip(n, LittleEndian(n));
    LittleEndianRoundTrip(c.kind, LittleEndian(c.kind));
    assert rest[..4] == LittleEndian(n) && rest[4..8] == LittleEndian(c.kind) && rest[8..8 + n] == c.payload;
  }

  /** Bytes decompose into chunks in at most one way. */
  lemma {:induction false} ChunksAreUnique(a: seq<Chunk>, b: seq<Chunk>)
    requires AllOk(a) && AllOk(b) && EncodeAll(a) == EncodeAll(b)
    ensures a == b
  {
    hide Encode, StartsWithChunk, FirstChunk;
    if a != [] && b != [] {
      ReadChunk(a[0], EncodeAll(a[1..]));
      ReadChunk(b[0], EncodeAll(b[1..]));
      ChunksAreUnique(a[1..], b[1..]);
      assert a == [a[0]] + a[1..] && b == [b[0]] + b[1..];
    }
  }

  lemma FramingIsUnique(data: Bytes, a: seq<Chunk>, b: seq<Chunk>)
    requires AllOk(a) && AllOk(b) && Framed(data, a) && Framed(data, b)
    ensures a == b
  {
    hide Encode, Header;
    assert EncodeAll(a) == data[12..] && EncodeAll(b) == data[12..];
    ChunksAreUnique(a, b);
  }

  // ----- what the loop decides -----

  /** The rest of the file is accepted by the loop. */
  predicate Accepts(rest: Bytes, first: bool)
    decreases |rest|
  {
    if rest == [] then !first
    else
      StartsWithChunk(rest) &&
      var c := FirstChunk(rest);
      c.kind == (if first then JSON else BIN) && Accepts(rest[8 + |c.payload|..], false)
  }

  predicate Grammar(chunks: seq<Chunk>, first: bool) {
    && (first ==> chunks != [] && chunks[0].kind == JSON)
    && forall i | (if first then 1 else 0) <= i < |chunks| :: chunks[i].kind == BIN
  }

  lemma {:induction false} GrammarAccepted(chunks: seq<Chunk>, first: bool)
    requires AllOk(chunks) && Grammar(chunks, first)
    ensures Accepts(EncodeAll(chunks), first)
    decreases |chunks|
  {
    hide StartsWithChunk, FirstChunk, Encode;
    if chunks != [] {
      ReadChunk(chunks[0], EncodeAll(chunks[1..]));
      GrammarAccepted(chunks[1..], false);
    }
  }

  lemma {:induction false} AcceptedIsGrammar(rest: Bytes, first: bool) returns (chunks: seq<Chunk>)
    requires Accepts(rest, first)
    ensures AllOk(chunks) && Grammar(chunks, first) && rest == EncodeAll(chunks)
    decreases |rest|
  {
    hide StartsWithChunk, FirstChunk, Encode;
    chunks := [];
    if rest != [] {
      var c := FirstChunk(rest);
      SplitChunk(rest);
      var more := AcceptedIsGrammar(rest[8 + |c.payload|..], false);
      chunks := [c] + more;
      assert chunks[1..] == more;
    }
  }

  predicate StartsWithHeader(data: Bytes) {
    && |data| >= 12 && data[..4] == MAGIC
    && FromLittleEndian(data[4..8]) == 2 && FromLittleEndian(data[8..12]) == |data|
  }

  lemma HeaderExactly(data: Bytes)
    ensures StartsWithHeader(data) <==> |data| >= 12 && |data| < TWO_TO_32 && data[..12] == Header(|data|)
  {
    hide FromLittleEndian, LittleEndian;
    if |data| >= 12 {
      LittleEndianRoundTrip(2, data[4..8]);
      assert data[..12] == data[..4] + data[4..8] + data[8..12];
      if |data| < TWO_TO_32 {
        LittleEndianRoundTrip(|data|, data[8..12]);
        var h := Header(|data|);
        assert h[..4] == MAGIC && h[4..8] == LittleEndian(2) && h[8..12] == LittleEndian(|data|);
        assert data[..12] == h ==> data[..4] == h[..4] && data[4..8] == h[4..8] && data[8..12] == h[8..12];
      }
    }
  }

  lemma AcceptsExactly(data: Bytes)
    requires StartsWithHeader(data)
    ensures Accepts(data[12..], true) <==> IsGlb(data)
  {
    hide Accepts, StartsWithHeader, Header;
    HeaderExactly(data);
    assert data == data[..12] + data[12..];
    if Accepts(data[12..], true) {
      var chunks := AcceptedIsGrammar(data[12..], true);
      assert Framed(data, chunks);
    }
    if IsGlb(data) {
      var chunks: seq<Chunk> :| AllOk(chunks) && Framed(data, chunks);
      GrammarAccepted(chunks, true);
      assert data[12..] == EncodeAll(chunks);
    }
  }

  lemma GlbStart(data: Bytes)
    ensures IsGlb(data) ==> |data| >= 20 && data[..4] == MAGIC && StartsWithHeader(data)
  {
    hide StartsWithHeader, Encode;
    if IsGlb(data) {
      var chunks: seq<Chunk> :| AllOk(chunks) && Framed(data, chunks);
      HeaderExactly(data);
      assert data[..12] == Header(|data|);
      assert data[..4] == data[..12][..4] == MAGIC;
    }
  }

  /** The first chunk's payload, in the one way the file is framed. */
  ghost function JsonOf(data: Bytes): Bytes
    requires IsGlb(data)
  {
    var chunks: seq<Chunk> :| AllOk(chunks) && Framed(data, chunks);
    chunks[0].payload
  }

  lemma JsonOfFramed(data: Bytes)
    requires StartsWithHeader(data) && Accepts(data[12..], true)
    ensures IsGlb(data) && JsonOf(data) == FirstChunk(data[12..]).payload
  {
    hide StartsWithHeader, Encode, Header, FirstChunk, StartsWithChunk;
    AcceptsExactly(data);
    var chunks: seq<Chunk> :| AllOk(chunks) && Framed(data, chunks) && JsonOf(data) == chunks[0].payload;
    assert data[12..] == EncodeAll(chunks) == Encode(chunks[0]) + EncodeAll(chunks[1..]);
    ReadChunk(chunks[0], EncodeAll(chunks[1..]));
  }

  /** `_parse_glb_json`. */
  method ParseGlb(parse: Parse, data: Bytes) returns (r: Option<Document>)
    ensures r == if IsGlb(data) then DocumentOf(parse, JsonOf(data)) else None
  {
    hide IsGlb, FromLittleEndian, Stripped, JsonOf, StartsWithHeader;
    GlbStart(data);
    if |data| < 20 || data[..4] != MAGIC { return None; }
    StartShape(data);
    if FromLittleEndian(data[4..8]) != 2 || FromLittleEndian(data[8..12]) != |data| { return None; }
    AcceptsExactly(data);
    var offset := 12;
    var firstJson: Option<Bytes> := None;
    var chunkIndex := 0;
    while offset < |data|
      invariant 12 <= offset <= |data|
      invariant firstJson.Some? <==> chunkIndex > 0
      invariant chunkIndex == 0 ==> offset == 12
      invariant chunkIndex >= 0
      invariant Accepts(data[12..], true) == Accepts(data[offset..], chunkIndex == 0)
      invariant firstJson.Some? ==> StartsWithChunk(data[12..]) && firstJson.value == FirstChunk(data[12..]).payload
      decreases |data| - offset
    {
      if offset + 8 > |data| { return None; }
      ghost var rest := data[offset..];
      var n, kind := FromLittleEndian(data[offset..offset + 4]), FromLittleEndian(data[offset + 4..offset + 8]);
      assert rest[..4] == data[offset..offset + 4] && rest[4..8] == data[offset + 4..offset + 8];
      offset := offset + 8;
      if offset + n > |data| { return None; }
      var payload := data[offset..offset + n];
      assert rest[8..8 + n] == payload && rest[8 + n..] == data[offset + n..];
      offset := offset + n;
      if chunkIndex == 0 {
        if kind != JSON { return None; }
        firstJson := Some(payload);
      } else if kind != BIN {
        return None;
      }
      chunkIndex := chunkIndex + 1;
    }
    if firstJson.None? { return None; }
    JsonOfFramed(data);
    return DocumentOf(parse, firstJson.value);
  }

  lemma StartShape(data: Bytes)
    requires |data| >= 20 && data[..4] == MAGIC
    ensures StartsWithHeader(data) <==> FromLittleEndian(data[4..8]) == 2 && FromLittleEndian(data[8..12]) == |data|
  {
  }

  // ----- VRM -----

  predicate DeclaresVrm1(d: Document) {
    d.extensionsUsed.Some? && "VRMC_vrm" in d.extensionsUsed.value && d.vrmSpec == Some(Some("1.0"))
  }

  ghost predicate IsVrm1(parse: Parse, data: Bytes) {
    && |data| <= AVATAR_LIMIT && IsGlb(data)
    && DocumentOf(parse, JsonOf(data)).Some? && DeclaresVrm1(DocumentOf(parse, JsonOf(data)).value)
  }

  /** `validate_vrm1_bytes`. */
  method ValidateVrm1(parse: Parse, data: Bytes) returns (valid: bool)
    ensures valid <==> IsVrm1(parse, data)
  {
    GlbStart(data);
    if data == [] || |data| > AVATAR_LIMIT { return false; }
    var document := ParseGlb(parse, data);
    if document.None? { return false; }
    var d := document.value;
    if d.extensionsUsed.None? || "VRMC_vrm" !in d.extensionsUsed.value { return false; }
    if d.vrmSpec.None? { return false; }
    return d.vrmSpec.value == Some("1.0");
  }
}
