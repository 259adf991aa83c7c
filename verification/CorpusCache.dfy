/** The corpus cache: a self-describing binary file of chunks and their vectors, and
    the byte sequence a corpus digest is taken over. */
module CorpusCache {
  import opened Bits
  import opened LittleEndian
  import opened Numbers
  import opened Utf8
  import opened Wrappers

  datatype Fault = UnexpectedEnd | NotUtf8 | NotACache

  /** A string, as its UTF-8 bytes. */
  type Str = seq<Byte>

  // ----- What is cached -----

  const U32: nat := 0x1_0000_0000
  const U64: nat := 0x1_0000_0000_0000_0000
  const I64_MIN: int := -0x8000_0000_0000_0000
  const I64_MAX: int := 0x7fff_ffff_ffff_ffff

  /** A chunk. The last three fields are not stored. */
  datatype Chunk = Chunk(
    source: Str, document: Str, index: nat, headings: seq<Str>,
    content: Str, title: Str, url: Str, space: Option<Str>, author: Option<Str>, authorId: Option<Str>,
    updated: Option<int>, labels: seq<Str>, deleted: bool,
    externalId: Option<Str>, attributes: seq<(Str, seq<Str>)>, flags: seq<Str>)

  /** A vector, as the bit patterns of its values. */
  type Vector = seq<nat>

  datatype Header = Header(
    version: nat, corpusDigest: Str, modelId: Str, manifestDigest: Str, dims: nat,
    maxTokens: nat, chunkCount: nat, truncatedChunks: nat, seedDigest: Str)

  datatype Corpus = Corpus(chunks: seq<Chunk>, vectors: seq<Vector>, dims: nat, header: Header)

  function Legacy(dims: nat, count: nat): Header {
    Header(3, [], [], [], dims, 0, count, 0, [])
  }

  // ----- The fields -----

  function PutU32(v: nat): (s: seq<Byte>)
    ensures |s| == 4
  {
    Encode(v % U32, 4)
  }

  /** A signed number in two's complement. */
  function PutI64(v: int): (s: seq<Byte>)
    ensures |s| == 8
  {
    Encode(v % U64, 8)
  }

  function PutStr(s: Str): seq<Byte> {
    PutU32(|s|) + s
  }

  function PutOpt(s: Option<Str>): seq<Byte> {
    if s.Some? then [1] + PutStr(s.value) else [0]
  }

  function PutAll(list: seq<Str>): seq<Byte> {
    if list == [] then [] else PutAll(list[..|list| - 1]) + PutStr(list[|list| - 1])
  }

  function PutList(list: seq<Str>): seq<Byte> {
    PutU32(|list|) + PutAll(list)
  }

  function PutVector(v: Vector): seq<Byte> {
    if v == [] then [] else PutVector(v[..|v| - 1]) + PutU32(v[|v| - 1])
  }

  function PutBool(b: bool): seq<Byte> {
    [if b then 1 else 0]
  }

  type Read<+T> = Result<(T, seq<Byte>), Fault>

  function GetBytes(s: seq<Byte>, n: nat): Read<seq<Byte>> {
    if |s| < n then Err(UnexpectedEnd) else Ok((s[..n], s[n..]))
  }

  function GetU32(s: seq<Byte>): Read<nat> {
    var (b, t) :- GetBytes(s, 4);
    Ok((Decode(b), t))
  }

  function SignedOf(v: nat): int {
    if v > I64_MAX then v - U64 else v
  }

  function GetI64(s: seq<Byte>): Read<int> {
    var (b, t) :- GetBytes(s, 8);
    Ok((SignedOf(Decode(b)), t))
  }

  function GetStr(s: seq<Byte>): Read<Str> {
    var (n, t) :- GetU32(s);
    var (b, u) :- GetBytes(t, n);
    if IsUtf8(b) then Ok((b, u)) else Err(NotUtf8)
  }

  function GetOpt(s: seq<Byte>): Read<Option<Str>> {
    var (tag, t) :- GetBytes(s, 1);
    if tag[0] == 0 then Ok((None, t))
    else
      var (b, u) :- GetStr(t);
      Ok((Some(b), u))
  }

  /** `n` strings, the last read last. */
  function GetAll(s: seq<Byte>, n: nat): Read<seq<Str>> {
    if n == 0 then Ok(([], s))
    else
      var (front, t) :- GetAll(s, n - 1);
      var (last, u) :- GetStr(t);
      Ok((front + [last], u))
  }

  function GetList(s: seq<Byte>): Read<seq<Str>> {
    var (n, t) :- GetU32(s);
    GetAll(t, n)
  }

  function GetVector(s: seq<Byte>, n: nat): Read<Vector> {
    if n == 0 then Ok(([], s))
    else
      var (front, t) :- GetVector(s, n - 1);
      var (last, u) :- GetU32(t);
      Ok((front + [last], u))
  }

  function GetBool(s: seq<Byte>): Read<bool> {
    var (tag, t) :- GetBytes(s, 1);
    Ok((tag[0] != 0, t))
  }

  // ----- Fields come back -----

  predicate Fits(s: Str) {
    |s| < U32 && IsUtf8(s)
  }

  lemma Shift(a: seq<Byte>, b: seq<Byte>, c: seq<Byte>)
    ensures (a + b) + c == a + (b + c)
  {
  }

  lemma BytesBack(b: seq<Byte>, rest: seq<Byte>)
    ensures GetBytes(b + rest, |b|) == Ok((b, rest))
  {
    assert (b + rest)[..|b|] == b && (b + rest)[|b|..] == rest;
  }

  lemma U32Back(v: nat, rest: seq<Byte>)
    ensures GetU32(PutU32(v) + rest) == Ok((v % U32, rest))
  {
    BytesBack(PutU32(v), rest);
    Spans();
    DecodeOfEncode(v % U32, 4);
  }

  lemma I64Back(v: int, rest: seq<Byte>)
    requires I64_MIN <= v <= I64_MAX
    ensures GetI64(PutI64(v) + rest) == Ok((v, rest))
  {
    BytesBack(PutI64(v), rest);
    Spans();
    DecodeOfEncode(v % U64, 8);
  }

  lemma StrBack(s: Str, rest: seq<Byte>)
    requires Fits(s)
    ensures GetStr(PutStr(s) + rest) == Ok((s, rest))
  {
    hide IsUtf8, PutU32, GetU32;
    Shift(PutU32(|s|), s, rest);
    U32Back(|s|, s + rest);
    BytesBack(s, rest);
  }

  lemma OptBack(s: Option<Str>, rest: seq<Byte>)
    requires s.Some? ==> Fits(s.value)
    ensures GetOpt(PutOpt(s) + rest) == Ok((s, rest))
  {
    hide GetStr, PutStr, Fits;
    if s.Some? {
      Shift([1], PutStr(s.value), rest);
      BytesBack([1], PutStr(s.value) + rest);
      StrBack(s.value, rest);
    } else {
      BytesBack([0], rest);
    }
  }

  predicate AllFit(list: seq<Str>) {
    forall i :: 0 <= i < |list| ==> Fits(list[i])
  }

  lemma {:induction false} AllBack(list: seq<Str>, rest: seq<Byte>)
    requires AllFit(list)
    ensures GetAll(PutAll(list) + rest, |list|) == Ok((list, rest))
  {
    hide GetStr, PutStr, Fits;
    if list != [] {
      var front, last := list[..|list| - 1], list[|list| - 1];
      Shift(PutAll(front), PutStr(last), rest);
      AllBack(front, PutStr(last) + rest);
      StrBack(last, rest);
      assert list == front + [last];
    } else {
      assert PutAll(list) + rest == rest;
    }
  }

  lemma ListBack(list: seq<Str>, rest: seq<Byte>)
    requires |list| < U32 && AllFit(list)
    ensures GetList(PutList(list) + rest) == Ok((list, rest))
  {
    hide GetU32, PutU32, GetAll, PutAll, AllFit;
    Shift(PutU32(|list|), PutAll(list), rest);
    U32Back(|list|, PutAll(list) + rest);
    AllBack(list, rest);
  }

  lemma {:induction false} VectorBack(v: Vector, rest: seq<Byte>)
    requires forall i :: 0 <= i < |v| ==> v[i] < U32
    ensures GetVector(PutVector(v) + rest, |v|) == Ok((v, rest))
  {
    hide GetU32, PutU32;
    if v != [] {
      var front, last := v[..|v| - 1], v[|v| - 1];
      Shift(PutVector(front), PutU32(last), rest);
      VectorBack(front, PutU32(last) + rest);
      U32Back(last, rest);
      assert v == front + [last];
    } else {
      assert PutVector(v) + rest == rest;
    }
  }

  lemma BoolBack(b: bool, rest: seq<Byte>)
    ensures GetBool(PutBool(b) + rest) == Ok((b, rest))
  {
    BytesBack(PutBool(b), rest);
  }

  // ----- A chunk and its vector -----

  /** An absent time is written as the least one. */
  function Stamp(updated: Option<int>): int {
    if updated.Some? then updated.value else I64_MIN
  }

  function Unstamp(raw: int): Option<int> {
    if raw == I64_MIN then None else Some(raw)
  }

  function PutPlace(c: Chunk): seq<Byte> {
    PutStr(c.source) + PutStr(c.document) + PutU32(c.index) + PutList(c.headings)
  }

  function PutBody(c: Chunk): seq<Byte> {
    PutStr(c.content) + PutStr(c.title) + PutStr(c.url)
  }

  function PutOwners(c: Chunk): seq<Byte> {
    PutOpt(c.space) + PutOpt(c.author) + PutOpt(c.authorId)
  }

  function PutMarks(c: Chunk): seq<Byte> {
    PutI64(Stamp(c.updated)) + PutList(c.labels) + PutBool(c.deleted)
  }

  function PutChunk(c: Chunk, v: Vector): seq<Byte> {
    PutPlace(c) + PutBody(c) + PutOwners(c) + PutMarks(c) + PutVector(v)
  }

  datatype Place = Place(source: Str, document: Str, index: nat, headings: seq<Str>)
  datatype Body = Body(content: Str, title: Str, url: Str)
  datatype Owners = Owners(space: Option<Str>, author: Option<Str>, authorId: Option<Str>)
  datatype Marks = Marks(raw: int, labels: seq<Str>, deleted: bool)

  function GetPlace(s: seq<Byte>): Read<Place> {
    var (source, s1) :- GetStr(s);
    var (document, s2) :- GetStr(s1);
    var (index, s3) :- GetU32(s2);
    var (headings, s4) :- GetList(s3);
    Ok((Place(source, document, index, headings), s4))
  }

  function GetBody(s: seq<Byte>): Read<Body> {
    var (content, s1) :- GetStr(s);
    var (title, s2) :- GetStr(s1);
    var (url, s3) :- GetStr(s2);
    Ok((Body(content, title, url), s3))
  }

  function GetOwners(s: seq<Byte>): Read<Owners> {
    var (space, s1) :- GetOpt(s);
    var (author, s2) :- GetOpt(s1);
    var (authorId, s3) :- GetOpt(s2);
    Ok((Owners(space, author, authorId), s3))
  }

  function GetMarks(s: seq<Byte>): Read<Marks> {
    var (raw, s1) :- GetI64(s);
    var (labels, s2) :- GetList(s1);
    var (deleted, s3) :- GetBool(s2);
    Ok((Marks(raw, labels, deleted), s3))
  }

  function ChunkFrom(p: Place, b: Body, o: Owners, m: Marks): Chunk {
    Chunk(p.source, p.document, p.index, p.headings, b.content, b.title, b.url, o.space, o.author, o.authorId,
          Unstamp(m.raw), m.labels, m.deleted, None, [], [])
  }

  function GetChunk(s: seq<Byte>, dims: nat): Read<(Chunk, Vector)> {
    var (p, s1) :- GetPlace(s);
    var (b, s2) :- GetBody(s1);
    var (o, s3) :- GetOwners(s2);
    var (m, s4) :- GetMarks(s3);
    var (v, s5) :- GetVector(s4, dims);
    Ok(((ChunkFrom(p, b, o, m), v), s5))
  }

  /** What a chunk is once it has been stored: the fields that are not stored are
      empty, and the least time reads as none. */
  function Stored(c: Chunk): Chunk {
    c.(updated := Unstamp(Stamp(c.updated)), externalId := None, attributes := [], flags := [])
  }

  predicate OptFits(s: Option<Str>) {
    s.Some? ==> Fits(s.value)
  }

  predicate ListFits(list: seq<Str>) {
    |list| < U32 && AllFit(list)
  }

  predicate ChunkFits(c: Chunk) {
    && Fits(c.source) && Fits(c.document) && c.index < U32 && ListFits(c.headings)
    && Fits(c.content) && Fits(c.title) && Fits(c.url)
    && OptFits(c.space) && OptFits(c.author) && OptFits(c.authorId)
    && (c.updated.Some? ==> I64_MIN <= c.updated.value <= I64_MAX) && ListFits(c.labels)
  }

  predicate VectorFits(v: Vector, dims: nat) {
    |v| == dims && forall i :: 0 <= i < |v| ==> v[i] < U32
  }

  lemma PlaceBack(c: Chunk, rest: seq<Byte>)
    requires ChunkFits(c)
    ensures GetPlace(PutPlace(c) + rest) == Ok((Place(c.source, c.document, c.index, c.headings), rest))
  {
    hide GetStr, PutStr, GetU32, PutU32, GetList, PutList, Fits, ListFits;
    var a, b, d, e := PutStr(c.source), PutStr(c.document), PutU32(c.index), PutList(c.headings);
    Shift(a + b + d, e, rest);
    Shift(a + b, d, e + rest);
    Shift(a, b, d + (e + rest));
    StrBack(c.source, b + (d + (e + rest)));
    StrBack(c.document, d + (e + rest));
    U32Back(c.index, e + rest);
    assert |c.headings| < U32 && AllFit(c.headings) by {
      ListFitsIs(c.headings);
    }
    ListBack(c.headings, rest);
  }

  lemma ListFitsIs(list: seq<Str>)
    ensures ListFits(list) <==> |list| < U32 && AllFit(list)
  {
  }

  lemma BodyBack(c: Chunk, rest: seq<Byte>)
    requires ChunkFits(c)
    ensures GetBody(PutBody(c) + rest) == Ok((Body(c.content, c.title, c.url), rest))
  {
    hide GetStr, PutStr, Fits, ListFits;
    var a, b, d := PutStr(c.content), PutStr(c.title), PutStr(c.url);
    Shift(a + b, d, rest);
    Shift(a, b, d + rest);
    StrBack(c.content, b + (d + rest));
    StrBack(c.title, d + rest);
    StrBack(c.url, rest);
  }

  lemma OwnersBack(c: Chunk, rest: seq<Byte>)
    requires ChunkFits(c)
    ensures GetOwners(PutOwners(c) + rest) == Ok((Owners(c.space, c.author, c.authorId), rest))
  {
    hide GetOpt, PutOpt, Fits, ListFits;
    var a, b, d := PutOpt(c.space), PutOpt(c.author), PutOpt(c.authorId);
    Shift(a + b, d, rest);
    Shift(a, b, d + rest);
    OptBack(c.space, b + (d + rest));
    OptBack(c.author, d + rest);
    OptBack(c.authorId, rest);
  }

  lemma MarksBack(c: Chunk, rest: seq<Byte>)
    requires ChunkFits(c)
    ensures GetMarks(PutMarks(c) + rest) == Ok((Marks(Stamp(c.updated), c.labels, c.deleted), rest))
  {
    hide GetI64, PutI64, GetList, PutList, GetBool, PutBool, Fits, ListFits;
    var a, b, d := PutI64(Stamp(c.updated)), PutList(c.labels), PutBool(c.deleted);
    Shift(a + b, d, rest);
    Shift(a, b, d + rest);
    I64Back(Stamp(c.updated), b + (d + rest));
    ListFitsIs(c.labels);
    ListBack(c.labels, d + rest);
    BoolBack(c.deleted, rest);
  }

  lemma ChunkBack(c: Chunk, v: Vector, dims: nat, rest: seq<Byte>)
    requires ChunkFits(c) && VectorFits(v, dims)
    ensures GetChunk(PutChunk(c, v) + rest, dims) == Ok(((Stored(c), v), rest))
  {
    hide GetPlace, PutPlace, GetBody, PutBody, GetOwners, PutOwners, GetMarks, PutMarks, GetVector, PutVector, ChunkFits;
    var a, b, d, e, f := PutPlace(c), PutBody(c), PutOwners(c), PutMarks(c), PutVector(v);
    Shift(a + b + d + e, f, rest);
    Shift(a + b + d, e, f + rest);
    Shift(a + b, d, e + (f + rest));
    Shift(a, b, d + (e + (f + rest)));
    PlaceBack(c, b + (d + (e + (f + rest))));
    BodyBack(c, d + (e + (f + rest)));
    OwnersBack(c, e + (f + rest));
    MarksBack(c, f + rest);
    VectorBack(v, rest);
  }

  // ----- The file -----

  const MAGIC_V3: seq<Byte> := [0x52, 0x44, 0x42, 0x43, 0x41, 0x43, 0x48, 0x33]
  const MAGIC_V4: seq<Byte> := [0x49, 0x4e, 0x4c, 0x43, 0x41, 0x43, 0x48, 0x34]

  function PutChunks(chunks: seq<Chunk>, vectors: seq<Vector>, n: nat): seq<Byte>
    requires n <= |chunks| && n <= |vectors|
  {
    if n == 0 then [] else PutChunks(chunks, vectors, n - 1) + PutChunk(chunks[n - 1], vectors[n - 1])
  }

  function PutShape(dims: nat, count: nat): seq<Byte> {
    PutU32(dims) + PutU32(count)
  }

  function PutOrigin(h: Header): seq<Byte> {
    PutStr(h.corpusDigest) + PutStr(h.modelId) + PutStr(h.manifestDigest) + PutStr(h.seedDigest)
    + PutU32(h.maxTokens) + PutU32(h.truncatedChunks)
  }

  /** A version 4 file: the width and the count are the data's. */
  function Saved(c: Corpus): seq<Byte> {
    MAGIC_V4 + PutShape(c.dims, |c.chunks|) + PutOrigin(c.header)
    + PutChunks(c.chunks, c.vectors, Min(|c.chunks|, |c.vectors|))
  }

  /** A version 3 file, which nothing writes any more. */
  function LegacySaved(c: Corpus): seq<Byte> {
    MAGIC_V3 + PutShape(c.dims, |c.chunks|) + PutChunks(c.chunks, c.vectors, Min(|c.chunks|, |c.vectors|))
  }

  function GetVersion(s: seq<Byte>): (r: Read<nat>)
    ensures r.Ok? ==> r.value.0 == 3 || r.value.0 == 4
  {
    var (magic, t) :- GetBytes(s, 8);
    if magic == MAGIC_V4 then Ok((4, t)) else if magic == MAGIC_V3 then Ok((3, t)) else Err(NotACache)
  }

  function GetOrigin(s: seq<Byte>, dims: nat, count: nat): (r: Read<Header>)
    ensures r.Ok? ==> r.value.0.dims == dims && r.value.0.chunkCount == count
  {
    var (corpusDigest, s1) :- GetStr(s);
    var (modelId, s2) :- GetStr(s1);
    var (manifestDigest, s3) :- GetStr(s2);
    var (seedDigest, s4) :- GetStr(s3);
    var (maxTokens, s5) :- GetU32(s4);
    var (truncated, s6) :- GetU32(s5);
    Ok((Header(4, corpusDigest, modelId, manifestDigest, dims, maxTokens, count, truncated, seedDigest), s6))
  }

  function GetHeader(s: seq<Byte>): Read<Header> {
    var (version, s1) :- GetVersion(s);
    var (dims, s2) :- GetU32(s1);
    var (count, s3) :- GetU32(s2);
    if version == 3 then Ok((Legacy(dims, count), s3)) else GetOrigin(s3, dims, count)
  }

  function GetChunks(s: seq<Byte>, n: nat, dims: nat): Read<(seq<Chunk>, seq<Vector>)> {
    if n == 0 then Ok((([], []), s))
    else
      var (front, t) :- GetChunks(s, n - 1, dims);
      var (last, u) :- GetChunk(t, dims);
      Ok(((front.0 + [last.0], front.1 + [last.1]), u))
  }

  function Loaded(s: seq<Byte>): Result<Corpus, Fault> {
    var (h, t) :- GetHeader(s);
    var (data, u) :- GetChunks(t, h.chunkCount, h.dims);
    Ok(Corpus(data.0, data.1, h.dims, h))
  }

  function HeaderOf(s: seq<Byte>): Result<Header, Fault> {
    var (h, t) :- GetHeader(s);
    Ok(h)
  }

  function StoredAll(chunks: seq<Chunk>): (r: seq<Chunk>)
    ensures |r| == |chunks|
  {
    seq(|chunks|, i requires 0 <= i < |chunks| => Stored(chunks[i]))
  }

  predicate HeaderFits(h: Header) {
    && Fits(h.corpusDigest) && Fits(h.modelId) && Fits(h.manifestDigest) && Fits(h.seedDigest)
    && h.maxTokens < U32 && h.truncatedChunks < U32
  }

  predicate DataFits(c: Corpus) {
    && c.dims < U32 && |c.chunks| < U32
    && (forall i :: 0 <= i < |c.chunks| ==> ChunkFits(c.chunks[i]))
    && (forall i :: 0 <= i < |c.vectors| ==> VectorFits(c.vectors[i], c.dims))
  }

  lemma {:induction false} ChunksBack(chunks: seq<Chunk>, vectors: seq<Vector>, n: nat, dims: nat, rest: seq<Byte>)
    requires n <= |chunks| && n <= |vectors|
    requires forall i :: 0 <= i < n ==> ChunkFits(chunks[i]) && VectorFits(vectors[i], dims)
    ensures GetChunks(PutChunks(chunks, vectors, n) + rest, n, dims) == Ok(((StoredAll(chunks[..n]), vectors[..n]), rest))
  {
    hide GetChunk, PutChunk, ChunkFits, VectorFits, Stored;
    if n > 0 {
      Shift(PutChunks(chunks, vectors, n - 1), PutChunk(chunks[n - 1], vectors[n - 1]), rest);
      ChunksBack(chunks, vectors, n - 1, dims, PutChunk(chunks[n - 1], vectors[n - 1]) + rest);
      ChunkBack(chunks[n - 1], vectors[n - 1], dims, rest);
      assert StoredAll(chunks[..n]) == StoredAll(chunks[..n - 1]) + [Stored(chunks[n - 1])];
      assert vectors[..n] == vectors[..n - 1] + [vectors[n - 1]];
    } else {
      assert PutChunks(chunks, vectors, 0) + rest == rest;
      assert StoredAll(chunks[..0]) == [] && vectors[..0] == [];
    }
  }

  lemma OriginBack(h: Header, dims: nat, count: nat, rest: seq<Byte>)
    requires HeaderFits(h)
    ensures GetOrigin(PutOrigin(h) + rest, dims, count) == Ok((h.(version := 4, dims := dims, chunkCount := count), rest))
  {
    hide GetStr, PutStr, GetU32, PutU32, Fits;
    var a, b, d, e := PutStr(h.corpusDigest), PutStr(h.modelId), PutStr(h.manifestDigest), PutStr(h.seedDigest);
    var f, g := PutU32(h.maxTokens), PutU32(h.truncatedChunks);
    Shift(a + b + d + e + f, g, rest);
    Shift(a + b + d + e, f, g + rest);
    Shift(a + b + d, e, f + (g + rest));
    Shift(a + b, d, e + (f + (g + rest)));
    Shift(a, b, d + (e + (f + (g + rest))));
    StrBack(h.corpusDigest, b + (d + (e + (f + (g + rest)))));
    StrBack(h.modelId, d + (e + (f + (g + rest))));
    StrBack(h.manifestDigest, e + (f + (g + rest)));
    StrBack(h.seedDigest, f + (g + rest));
    U32Back(h.maxTokens, g + rest);
    U32Back(h.truncatedChunks, rest);
  }

  lemma VersionBack(rest: seq<Byte>)
    ensures GetVersion(MAGIC_V4 + rest) == Ok((4, rest)) && GetVersion(MAGIC_V3 + rest) == Ok((3, rest))
  {
    BytesBack(MAGIC_V4, rest);
    BytesBack(MAGIC_V3, rest);
    assert MAGIC_V4[0] != MAGIC_V3[0];
  }

  /** The header a saved file gives back: version 4, with the data's width and
      count. */
  function SavedHeader(c: Corpus): Header {
    c.header.(version := 4, dims := c.dims, chunkCount := |c.chunks|)
  }

  lemma HeaderBack(c: Corpus, rest: seq<Byte>)
    requires HeaderFits(c.header) && c.dims < U32 && |c.chunks| < U32
    ensures GetHeader(MAGIC_V4 + PutShape(c.dims, |c.chunks|) + PutOrigin(c.header) + rest) == Ok((SavedHeader(c), rest))
    ensures GetHeader(MAGIC_V3 + PutShape(c.dims, |c.chunks|) + rest) == Ok((Legacy(c.dims, |c.chunks|), rest))
  {
    hide GetU32, PutU32, GetVersion, GetOrigin, PutOrigin, HeaderFits;
    var a, b, o := PutU32(c.dims), PutU32(|c.chunks|), PutOrigin(c.header);
    Shift(MAGIC_V4 + (a + b), o, rest);
    Shift(MAGIC_V4, a + b, o + rest);
    Shift(a, b, o + rest);
    VersionBack(a + (b + (o + rest)));
    U32Back(c.dims, b + (o + rest));
    U32Back(|c.chunks|, o + rest);
    OriginBack(c.header, c.dims, |c.chunks|, rest);
    Shift(MAGIC_V3, a + b, rest);
    Shift(a, b, rest);
    VersionBack(a + (b + rest));
    U32Back(c.dims, b + rest);
    U32Back(|c.chunks|, rest);
  }

  // ----- Saving and loading -----

  /** What a saved corpus loads as, whatever follows it in the file: every stored
      field, under a version 4 header whose width and count are the data's. Vectors
      beyond the chunks are not written. */
  lemma LoadOfSave(c: Corpus, trailing: seq<Byte>)
    requires HeaderFits(c.header) && DataFits(c) && |c.chunks| <= |c.vectors|
    ensures Loaded(Saved(c) + trailing) ==
            Ok(Corpus(StoredAll(c.chunks), c.vectors[..|c.chunks|], c.dims, SavedHeader(c)))
    ensures HeaderOf(Saved(c) + trailing) == Ok(SavedHeader(c))
  {
    hide GetHeader, GetChunks, PutShape, PutOrigin, PutChunks, HeaderFits, ChunkFits, VectorFits, Stored;
    var data := PutChunks(c.chunks, c.vectors, |c.chunks|);
    Shift(MAGIC_V4 + PutShape(c.dims, |c.chunks|) + PutOrigin(c.header), data, trailing);
    HeaderBack(c, data + trailing);
    ChunksBack(c.chunks, c.vectors, |c.chunks|, c.dims, trailing);
    assert c.chunks[..|c.chunks|] == c.chunks;
  }

  /** A version 3 file still loads, with nothing to say of where it came from. */
  lemma LoadOfLegacy(c: Corpus, trailing: seq<Byte>)
    requires HeaderFits(c.header) && DataFits(c) && |c.chunks| <= |c.vectors|
    ensures Loaded(LegacySaved(c) + trailing) ==
            Ok(Corpus(StoredAll(c.chunks), c.vectors[..|c.chunks|], c.dims, Legacy(c.dims, |c.chunks|)))
  {
    hide GetHeader, GetChunks, PutShape, PutChunks, HeaderFits, ChunkFits, VectorFits, Stored;
    var data := PutChunks(c.chunks, c.vectors, |c.chunks|);
    Shift(MAGIC_V3 + PutShape(c.dims, |c.chunks|), data, trailing);
    HeaderBack(c, data + trailing);
    ChunksBack(c.chunks, c.vectors, |c.chunks|, c.dims, trailing);
    assert c.chunks[..|c.chunks|] == c.chunks;
  }

  /** Whether a chunk has nothing a cache cannot keep. */
  predicate IsKept(c: Chunk) {
    c.updated != Some(I64_MIN) && c.externalId == None && c.attributes == [] && c.flags == []
  }

  lemma StoredExactly(c: Chunk)
    requires c.updated.Some? ==> I64_MIN <= c.updated.value <= I64_MAX
    ensures Stored(c) == c <==> IsKept(c)
  {
  }

  /** A corpus comes back unchanged exactly when its header already says version 4 and
      the data's width and count, and no chunk has the least time of all or any field
      that is not stored. */
  lemma RoundTripExactly(c: Corpus)
    requires HeaderFits(c.header) && DataFits(c) && |c.chunks| == |c.vectors|
    ensures Loaded(Saved(c)) == Ok(c) <==>
            c.header == SavedHeader(c) && forall i :: 0 <= i < |c.chunks| ==> IsKept(c.chunks[i])
  {
    LoadOfSave(c, []);
    assert Saved(c) + [] == Saved(c) && c.vectors[..|c.chunks|] == c.vectors;
    hide Loaded, Saved, HeaderFits, VectorFits, Fits, ListFits, OptFits, Stored, IsKept;
    forall i | 0 <= i < |c.chunks| ensures Stored(c.chunks[i]) == c.chunks[i] <==> IsKept(c.chunks[i]) {
      assert ChunkFits(c.chunks[i]);
      StoredExactly(c.chunks[i]);
    }
    if forall i :: 0 <= i < |c.chunks| ==> IsKept(c.chunks[i]) {
      assert StoredAll(c.chunks) == c.chunks;
    }
    if StoredAll(c.chunks) == c.chunks {
      forall i | 0 <= i < |c.chunks| ensures IsKept(c.chunks[i]) {
        assert StoredAll(c.chunks)[i] == c.chunks[i];
      }
    }
  }

  /** A corpus with fewer vectors than chunks saves a file that does not load: it says
      it holds more than it does. */
  lemma TooFewVectorsDoNotLoad(c: Corpus)
    requires HeaderFits(c.header) && DataFits(c) && |c.vectors| < |c.chunks|
    ensures Loaded(Saved(c)) == Err(UnexpectedEnd)
  {
    hide GetHeader, GetChunks, PutShape, PutOrigin, PutChunks, HeaderFits, ChunkFits, VectorFits, Stored;
    var data := PutChunks(c.chunks, c.vectors, |c.vectors|);
    HeaderBack(c, data);
    ChunksBack(c.chunks, c.vectors, |c.vectors|, c.dims, []);
    assert data + [] == data;
    RunsOut(data, |c.vectors|, |c.chunks|, c.dims);
  }

  lemma {:induction false} RunsOut(s: seq<Byte>, n: nat, more: nat, dims: nat)
    requires GetChunks(s, n, dims).Ok? && GetChunks(s, n, dims).value.1 == [] && n < more
    ensures GetChunks(s, more, dims) == Err(UnexpectedEnd)
    decreases more
  {
    hide GetChunk;
    if n + 1 < more {
      RunsOut(s, n, more - 1, dims);
    } else {
      NothingHoldsNoChunk(dims);
    }
  }

  lemma NothingHoldsNoChunk(dims: nat)
    ensures GetChunk([], dims) == Err(UnexpectedEnd)
  {
    assert GetU32([]) == Err(UnexpectedEnd);
    assert GetStr([]) == Err(UnexpectedEnd);
    assert GetPlace([]) == Err(UnexpectedEnd);
  }

  /** A file being written. */
  class Sink {
    var bytes: seq<Byte>

    constructor ()
      ensures bytes == []
    {
      bytes := [];
    }

    method Write(b: seq<Byte>)
      modifies this
      ensures bytes == old(bytes) + b
    {
      bytes := bytes + b;
    }

    method WriteU32(v: nat)
      modifies this
      ensures bytes == old(bytes) + PutU32(v)
    {
      Write(Encode(v % U32, 4));
    }

    method WriteString(s: Str)
      modifies this
      ensures bytes == old(bytes) + PutStr(s)
    {
      WriteU32(|s|);
      Write(s);
    }

    method WriteU64(v: nat)
      modifies this
      ensures bytes == old(bytes) + PutU64(v)
    {
      Write(Encode(v % U64, 8));
    }

    /** Feeds a hasher one field: its length, then its bytes. */
    method FeedField(s: Str)
      modifies this
      ensures bytes == old(bytes) + Field(s)
    {
      Write(Encode(|s| % U64, 8));
      Write(s);
    }

    method WriteOption(s: Option<Str>)
      modifies this
      ensures bytes == old(bytes) + PutOpt(s)
    {
      hide PutStr;
      if s.Some? {
        Write([1]);
        WriteString(s.value);
      } else {
        Write([0]);
      }
    }

    method WriteList(list: seq<Str>)
      modifies this
      ensures bytes == old(bytes) + PutList(list)
    {
      hide PutStr;
      ghost var before := bytes;
      WriteU32(|list|);
      for k := 0 to |list|
        invariant bytes == before + (PutU32(|list|) + PutAll(list[..k]))
      {
        assert list[..k + 1][..k] == list[..k];
        WriteString(list[k]);
        Shift(PutU32(|list|), PutAll(list[..k]), PutStr(list[k]));
        Shift(before, PutU32(|list|) + PutAll(list[..k]), PutStr(list[k]));
      }
      assert list[..|list|] == list;
    }

    method WriteVector(v: Vector)
      modifies this
      ensures bytes == old(bytes) + PutVector(v)
    {
      ghost var before := bytes;
      for k := 0 to |v|
        invariant bytes == before + PutVector(v[..k])
      {
        assert v[..k + 1][..k] == v[..k];
        WriteU32(v[k]);
      }
      assert v[..|v|] == v;
    }

    method WriteChunk(c: Chunk, v: Vector)
      modifies this
      ensures bytes == old(bytes) + PutChunk(c, v)
    {
      hide PutPlace, PutBody, PutOwners, PutMarks, PutVector;
      ghost var before := bytes;
      WritePlace(c);
      WriteBody(c);
      Shift(before, PutPlace(c), PutBody(c));
      WriteOwners(c);
      Shift(before, PutPlace(c) + PutBody(c), PutOwners(c));
      WriteMarks(c);
      Shift(before, PutPlace(c) + PutBody(c) + PutOwners(c), PutMarks(c));
      WriteVector(v);
      Shift(before, PutPlace(c) + PutBody(c) + PutOwners(c) + PutMarks(c), PutVector(v));
    }

    method WritePlace(c: Chunk)
      modifies this
      ensures bytes == old(bytes) + PutPlace(c)
    {
      hide PutStr, PutList;
      ghost var before := bytes;
      WriteString(c.source);
      WriteString(c.document);
      Shift(before, PutStr(c.source), PutStr(c.document));
      WriteU32(c.index);
      Shift(before, PutStr(c.source) + PutStr(c.document), PutU32(c.index));
      WriteList(c.headings);
      Shift(before, PutStr(c.source) + PutStr(c.document) + PutU32(c.index), PutList(c.headings));
    }

    method WriteBody(c: Chunk)
      modifies this
      ensures bytes == old(bytes) + PutBody(c)
    {
      hide PutStr;
      ghost var before := bytes;
      WriteString(c.content);
      WriteString(c.title);
      Shift(before, PutStr(c.content), PutStr(c.title));
      WriteString(c.url);
      Shift(before, PutStr(c.content) + PutStr(c.title), PutStr(c.url));
    }

    method WriteOwners(c: Chunk)
      modifies this
      ensures bytes == old(bytes) + PutOwners(c)
    {
      hide PutOpt;
      ghost var before := bytes;
      WriteOption(c.space);
      WriteOption(c.author);
      Shift(before, PutOpt(c.space), PutOpt(c.author));
      WriteOption(c.authorId);
      Shift(before, PutOpt(c.space) + PutOpt(c.author), PutOpt(c.authorId));
    }

    method WriteMarks(c: Chunk)
      modifies this
      ensures bytes == old(bytes) + PutMarks(c)
    {
      hide PutList;
      ghost var before := bytes;
      var raw := if c.updated.Some? then c.updated.value else I64_MIN;
      Write(Encode(raw % U64, 8));
      WriteList(c.labels);
      Shift(before, PutI64(raw), PutList(c.labels));
      Write([if c.deleted then 1 else 0]);
      Shift(before, PutI64(raw) + PutList(c.labels), PutBool(c.deleted));
    }

    method WriteOrigin(h: Header)
      modifies this
      ensures bytes == old(bytes) + PutOrigin(h)
    {
      hide PutStr;
      ghost var before := bytes;
      WriteString(h.corpusDigest);
      WriteString(h.modelId);
      Shift(before, PutStr(h.corpusDigest), PutStr(h.modelId));
      WriteString(h.manifestDigest);
      ghost var all := PutStr(h.corpusDigest) + PutStr(h.modelId);
      Shift(before, all, PutStr(h.manifestDigest));
      all := all + PutStr(h.manifestDigest);
      WriteString(h.seedDigest);
      Shift(before, all, PutStr(h.seedDigest));
      all := all + PutStr(h.seedDigest);
      WriteU32(h.maxTokens);
      Shift(before, all, PutU32(h.maxTokens));
      all := all + PutU32(h.maxTokens);
      WriteU32(h.truncatedChunks);
      Shift(before, all, PutU32(h.truncatedChunks));
    }
  }

  /** Writes the cache, header first: the width and count are taken from the data. */
  method SaveCache(corpus: Corpus) returns (file: seq<Byte>)
    ensures file == Saved(corpus)
  {
    hide PutChunk, PutOrigin, PutU32;
    var w := new Sink();
    w.Write(MAGIC_V4);
    w.WriteU32(corpus.dims);
    w.WriteU32(|corpus.chunks|);
    Shift(MAGIC_V4, PutU32(corpus.dims), PutU32(|corpus.chunks|));
    w.WriteOrigin(corpus.header);
    ghost var head := w.bytes;
    assert head == MAGIC_V4 + PutShape(corpus.dims, |corpus.chunks|) + PutOrigin(corpus.header);
    var pairs := Min(|corpus.chunks|, |corpus.vectors|);
    for k := 0 to pairs
      invariant w.bytes == head + PutChunks(corpus.chunks, corpus.vectors, k)
    {
      w.WriteChunk(corpus.chunks[k], corpus.vectors[k]);
      Shift(head, PutChunks(corpus.chunks, corpus.vectors, k), PutChunk(corpus.chunks[k], corpus.vectors[k]));
    }
    file := w.bytes;
  }

  /** What a reader's method has to do: give what the parse of the unread bytes gives,
      and leave unread what it leaves. */
  ghost predicate Follows<T>(p: Read<T>, r: Result<T, Fault>, rest: seq<Byte>) {
    match p
    case Ok(pair) => r == Ok(pair.0) && rest == pair.1
    case Err(fault) => r == Err(fault)
  }

  /** A file being read. */
  class Source {
    var rest: seq<Byte>

    constructor (file: seq<Byte>)
      ensures rest == file
    {
      rest := file;
    }

    method ReadExact(n: nat) returns (r: Result<seq<Byte>, Fault>)
      modifies this
      ensures Follows(GetBytes(old(rest), n), r, rest)
    {
      if |rest| < n {
        return Err(UnexpectedEnd);
      }
      var b := rest[..n];
      rest := rest[n..];
      r := Ok(b);
    }

    method ReadU32() returns (r: Result<nat, Fault>)
      modifies this
      ensures Follows(GetU32(old(rest)), r, rest)
    {
      var b :- ReadExact(4);
      r := Ok(Decode(b));
    }

    method ReadI64() returns (r: Result<int, Fault>)
      modifies this
      ensures Follows(GetI64(old(rest)), r, rest)
    {
      var b :- ReadExact(8);
      r := Ok(SignedOf(Decode(b)));
    }

    method ReadString() returns (r: Result<Str, Fault>)
      modifies this
      ensures Follows(GetStr(old(rest)), r, rest)
    {
      hide IsUtf8;
      var n :- ReadU32();
      var b :- ReadExact(n);
      if !IsUtf8(b) {
        return Err(NotUtf8);
      }
      r := Ok(b);
    }

    method ReadOption() returns (r: Result<Option<Str>, Fault>)
      modifies this
      ensures Follows(GetOpt(old(rest)), r, rest)
    {
      hide GetStr;
      var tag :- ReadExact(1);
      if tag[0] == 0 {
        return Ok(None);
      }
      var b :- ReadString();
      r := Ok(Some(b));
    }

    method ReadList() returns (r: Result<seq<Str>, Fault>)
      modifies this
      ensures Follows(GetList(old(rest)), r, rest)
    {
      hide GetStr, GetU32;
      var n :- ReadU32();
      ghost var start := rest;
      var list: seq<Str> := [];
      for k := 0 to n
        invariant GetAll(start, k) == Ok((list, rest))
      {
        var s := ReadString();
        if s.Err? {
          AllFails(start, k + 1, n);
          return Err(s.fault);
        }
        list := list + [s.value];
      }
      r := Ok(list);
    }

    method ReadVector(dims: nat) returns (r: Result<Vector, Fault>)
      modifies this
      ensures Follows(GetVector(old(rest), dims), r, rest)
    {
      hide GetU32;
      ghost var start := rest;
      var v: Vector := [];
      for k := 0 to dims
        invariant GetVector(start, k) == Ok((v, rest))
      {
        var x := ReadU32();
        if x.Err? {
          VectorFails(start, k + 1, dims);
          return Err(x.fault);
        }
        v := v + [x.value];
      }
      r := Ok(v);
    }

    method ReadPlace() returns (r: Result<Place, Fault>)
      modifies this
      ensures Follows(GetPlace(old(rest)), r, rest)
    {
      hide GetStr, GetU32, GetList;
      var source :- ReadString();
      var document :- ReadString();
      var index :- ReadU32();
      var headings :- ReadList();
      r := Ok(Place(source, document, index, headings));
    }

    method ReadBody() returns (r: Result<Body, Fault>)
      modifies this
      ensures Follows(GetBody(old(rest)), r, rest)
    {
      hide GetStr;
      var content :- ReadString();
      var title :- ReadString();
      var url :- ReadString();
      r := Ok(Body(content, title, url));
    }

    method ReadOwners() returns (r: Result<Owners, Fault>)
      modifies this
      ensures Follows(GetOwners(old(rest)), r, rest)
    {
      hide GetOpt;
      var space :- ReadOption();
      var author :- ReadOption();
      var authorId :- ReadOption();
      r := Ok(Owners(space, author, authorId));
    }

    method ReadMarks() returns (r: Result<Marks, Fault>)
      modifies this
      ensures Follows(GetMarks(old(rest)), r, rest)
    {
      hide GetI64, GetList;
      var raw :- ReadI64();
      var labels :- ReadList();
      var tag :- ReadExact(1);
      r := Ok(Marks(raw, labels, tag[0] != 0));
    }

    method ReadChunk(dims: nat) returns (r: Result<(Chunk, Vector), Fault>)
      modifies this
      ensures Follows(GetChunk(old(rest), dims), r, rest)
    {
      hide GetPlace, GetBody, GetOwners, GetMarks, GetVector;
      var p :- ReadPlace();
      var b :- ReadBody();
      var o :- ReadOwners();
      var m :- ReadMarks();
      var v :- ReadVector(dims);
      r := Ok((ChunkFrom(p, b, o, m), v));
    }

    method ReadOrigin(dims: nat, count: nat) returns (r: Result<Header, Fault>)
      modifies this
      ensures Follows(GetOrigin(old(rest), dims, count), r, rest)
    {
      hide GetStr, GetU32;
      var corpusDigest :- ReadString();
      var modelId :- ReadString();
      var manifestDigest :- ReadString();
      var seedDigest :- ReadString();
      var maxTokens :- ReadU32();
      var truncated :- ReadU32();
      r := Ok(Header(4, corpusDigest, modelId, manifestDigest, dims, maxTokens, count, truncated, seedDigest));
    }

    method ReadVersion() returns (r: Result<nat, Fault>)
      modifies this
      ensures Follows(GetVersion(old(rest)), r, rest)
    {
      var magic :- ReadExact(8);
      if magic == MAGIC_V4 {
        return Ok(4);
      }
      if magic == MAGIC_V3 {
        return Ok(3);
      }
      r := Err(NotACache);
    }

    method ReadHeaderHere() returns (r: Result<Header, Fault>)
      modifies this
      ensures Follows(GetHeader(old(rest)), r, rest)
    {
      hide GetVersion, GetU32, GetOrigin;
      var version :- ReadVersion();
      var dims :- ReadU32();
      var count :- ReadU32();
      if version == 3 {
        return Ok(Legacy(dims, count));
      }
      r := ReadOrigin(dims, count);
    }
  }

  lemma {:induction false} AllFails(s: seq<Byte>, k: nat, n: nat)
    requires k <= n && GetAll(s, k).Err?
    ensures GetAll(s, n).Err? && GetAll(s, n).fault == GetAll(s, k).fault
    decreases n
  {
    hide GetStr;
    if k < n {
      AllFails(s, k, n - 1);
    }
  }

  lemma {:induction false} VectorFails(s: seq<Byte>, k: nat, n: nat)
    requires k <= n && GetVector(s, k).Err?
    ensures GetVector(s, n).Err? && GetVector(s, n).fault == GetVector(s, k).fault
    decreases n
  {
    hide GetU32;
    if k < n {
      VectorFails(s, k, n - 1);
    }
  }

  lemma {:induction false} ChunksFail(s: seq<Byte>, k: nat, n: nat, dims: nat)
    requires k <= n && GetChunks(s, k, dims).Err?
    ensures GetChunks(s, n, dims).Err? && GetChunks(s, n, dims).fault == GetChunks(s, k, dims).fault
    decreases n
  {
    hide GetChunk;
    if k < n {
      ChunksFail(s, k, n - 1, dims);
    }
  }

  /** Reads only what a cache says about itself. */
  method ReadHeader(file: seq<Byte>) returns (r: Result<Header, Fault>)
    ensures r == HeaderOf(file)
    ensures Loaded(file).Ok? ==> r == Ok(Loaded(file).value.header)
  {
    hide GetHeader, GetChunks;
    var source := new Source(file);
    r := source.ReadHeaderHere();
  }

  /** Reads a cache, at whichever version wrote it. */
  method LoadCache(file: seq<Byte>) returns (r: Result<Corpus, Fault>)
    ensures r == Loaded(file)
  {
    hide GetVersion, GetU32, GetOrigin, GetChunk;
    var source := new Source(file);
    var version :- source.ReadVersion();
    var dims :- source.ReadU32();
    var count :- source.ReadU32();
    var header: Header;
    if version == 4 {
      header :- source.ReadOrigin(dims, count);
    } else {
      header := Legacy(dims, count);
    }
    assert GetHeader(file) == Ok((header, source.rest));
    var chunks: seq<Chunk>, vectors: seq<Vector> := [], [];
    ghost var start := source.rest;
    for k := 0 to count
      invariant fresh(source) && GetChunks(start, k, dims) == Ok(((chunks, vectors), source.rest))
    {
      var pair := source.ReadChunk(dims);
      if pair.Err? {
        ChunksFail(start, k + 1, count, dims);
        return Err(pair.fault);
      }
      chunks, vectors := chunks + [pair.value.0], vectors + [pair.value.1];
    }
    r := Ok(Corpus(chunks, vectors, dims, header));
  }

  // ----- The digest of a corpus -----

  /** The bytes of "inillucent-corpus-v1". */
  const DIGEST_TAG: seq<Byte> := [
    0x69, 0x6e, 0x69, 0x6c, 0x6c, 0x75, 0x63, 0x65, 0x6e, 0x74,
    0x2d, 0x63, 0x6f, 0x72, 0x70, 0x75, 0x73, 0x2d, 0x76, 0x31
  ]

  function PutU64(v: nat): (s: seq<Byte>)
    ensures |s| == 8
  {
    Encode(v % U64, 8)
  }

  /** A field with its length before it. */
  function Field(s: Str): seq<Byte> {
    PutU64(|s|) + s
  }

  function DigestedChunk(c: Chunk): seq<Byte> {
    Field(c.source) + Field(c.document) + Field(c.content) + PutU64(c.index)
  }

  function DigestedAll(chunks: seq<Chunk>): seq<Byte> {
    if chunks == [] then [] else DigestedChunk(chunks[0]) + DigestedAll(chunks[1..])
  }

  /** The byte sequence a corpus digest is taken over. */
  function Digested(chunks: seq<Chunk>): seq<Byte> {
    DIGEST_TAG + PutU64(|chunks|) + DigestedAll(chunks)
  }

  /** Feeds a hasher with the corpus, field by field. */
  method FeedDigest(chunks: seq<Chunk>) returns (fed: seq<Byte>)
    ensures fed == Digested(chunks)
  {
    hide Field, PutU64;
    var w := new Sink();
    w.Write(DIGEST_TAG);
    w.WriteU64(|chunks|);
    ghost var head := w.bytes;
    for k := 0 to |chunks|
      invariant w.bytes + DigestedAll(chunks[k..]) == head + DigestedAll(chunks)
    {
      ghost var before := w.bytes;
      var c := chunks[k];
      w.FeedField(c.source);
      w.FeedField(c.document);
      Shift(before, Field(c.source), Field(c.document));
      w.FeedField(c.content);
      Shift(before, Field(c.source) + Field(c.document), Field(c.content));
      w.WriteU64(c.index);
      Shift(before, Field(c.source) + Field(c.document) + Field(c.content), PutU64(c.index));
      assert chunks[k..][0] == c && chunks[k..][1..] == chunks[k + 1..];
      Shift(before, DigestedChunk(c), DigestedAll(chunks[k + 1..]));
    }
    assert chunks[|chunks|..] == [];
    assert w.bytes + [] == w.bytes;
    fed := w.bytes;
  }

  lemma CountIsRead(a: nat, b: nat, s: seq<Byte>, t: seq<Byte>)
    requires a < U64 && b < U64 && PutU64(a) + s == PutU64(b) + t
    ensures a == b && s == t
  {
    hide PutU64, Decode;
    assert PutU64(a) == (PutU64(a) + s)[..8] && PutU64(b) == (PutU64(b) + t)[..8];
    assert s == (PutU64(a) + s)[8..] && t == (PutU64(b) + t)[8..];
    CountBack(a);
    CountBack(b);
  }

  lemma CountBack(v: nat)
    requires v < U64
    ensures Decode(PutU64(v)) == v
  {
    hide Encode, Decode, Span;
    Spans();
    DecodeOfEncode(v, 8);
  }

  lemma FieldIsRead(a: Str, b: Str, s: seq<Byte>, t: seq<Byte>)
    requires |a| < U64 && |b| < U64 && Field(a) + s == Field(b) + t
    ensures a == b && s == t
  {
    hide PutU64;
    Shift(PutU64(|a|), a, s);
    Shift(PutU64(|b|), b, t);
    CountIsRead(|a|, |b|, a + s, b + t);
    assert (a + s)[..|a|] == a && (b + t)[..|b|] == b && (a + s)[|a|..] == s && (b + t)[|b|..] == t;
  }

  predicate Digestible(c: Chunk) {
    |c.source| < U64 && |c.document| < U64 && |c.content| < U64 && c.index < U64
  }

  /** The fields a digest covers. */
  predicate SameDigested(a: Chunk, b: Chunk) {
    a.source == b.source && a.document == b.document && a.content == b.content && a.index == b.index
  }

  lemma ChunkIsRead(a: Chunk, b: Chunk, s: seq<Byte>, t: seq<Byte>)
    requires Digestible(a) && Digestible(b) && DigestedChunk(a) + s == DigestedChunk(b) + t
    ensures SameDigested(a, b) && s == t
  {
    hide Field, PutU64;
    Regroup(Field(a.source), Field(a.document), Field(a.content), PutU64(a.index), s);
    Regroup(Field(b.source), Field(b.document), Field(b.content), PutU64(b.index), t);
    FieldIsRead(a.source, b.source, Field(a.document) + (Field(a.content) + (PutU64(a.index) + s)),
                Field(b.document) + (Field(b.content) + (PutU64(b.index) + t)));
    FieldIsRead(a.document, b.document, Field(a.content) + (PutU64(a.index) + s), Field(b.content) + (PutU64(b.index) + t));
    FieldIsRead(a.content, b.content, PutU64(a.index) + s, PutU64(b.index) + t);
    CountIsRead(a.index, b.index, s, t);
  }

  lemma Regroup(a: seq<Byte>, b: seq<Byte>, c: seq<Byte>, d: seq<Byte>, s: seq<Byte>)
    ensures a + b + c + d + s == a + (b + (c + (d + s)))
  {
    Shift(a + b + c, d, s);
    Shift(a + b, c, d + s);
    Shift(a, b, c + (d + s));
  }

  lemma {:induction false} AllAreRead(a: seq<Chunk>, b: seq<Chunk>)
    requires |a| == |b| && DigestedAll(a) == DigestedAll(b)
    requires forall i :: 0 <= i < |a| ==> Digestible(a[i]) && Digestible(b[i])
    ensures forall i :: 0 <= i < |a| ==> SameDigested(a[i], b[i])
  {
    hide DigestedChunk, Digestible, SameDigested;
    if a != [] {
      ChunkIsRead(a[0], b[0], DigestedAll(a[1..]), DigestedAll(b[1..]));
      AllAreRead(a[1..], b[1..]);
      forall i | 0 <= i < |a| ensures SameDigested(a[i], b[i]) {
        assert i > 0 ==> a[i] == a[1..][i - 1] && b[i] == b[1..][i - 1];
      }
    }
  }

  /** Two corpora give a digest the same bytes exactly when they agree, chunk by chunk,
      in every field it covers: no boundary can be moved. */
  lemma DigestedIsInjective(a: seq<Chunk>, b: seq<Chunk>)
    requires |a| < U64 && |b| < U64
    requires forall i :: 0 <= i < |a| ==> Digestible(a[i])
    requires forall i :: 0 <= i < |b| ==> Digestible(b[i])
    ensures Digested(a) == Digested(b) <==>
            |a| == |b| && forall i :: 0 <= i < |a| ==> SameDigested(a[i], b[i])
  {
    hide DigestedAll, Digestible, SameDigested, PutU64;
    if Digested(a) == Digested(b) {
      Shift(DIGEST_TAG, PutU64(|a|), DigestedAll(a));
      Shift(DIGEST_TAG, PutU64(|b|), DigestedAll(b));
      AfterTag(PutU64(|a|) + DigestedAll(a), PutU64(|b|) + DigestedAll(b));
      CountIsRead(|a|, |b|, DigestedAll(a), DigestedAll(b));
      AllAreRead(a, b);
    }
    if |a| == |b| && forall i :: 0 <= i < |a| ==> SameDigested(a[i], b[i]) {
      SameBytes(a, b);
    }
  }

  lemma AfterTag(s: seq<Byte>, t: seq<Byte>)
    requires DIGEST_TAG + s == DIGEST_TAG + t
    ensures s == t
  {
    assert (DIGEST_TAG + s)[|DIGEST_TAG|..] == s && (DIGEST_TAG + t)[|DIGEST_TAG|..] == t;
  }

  lemma {:induction false} SameBytes(a: seq<Chunk>, b: seq<Chunk>)
    requires |a| == |b| && forall i :: 0 <= i < |a| ==> SameDigested(a[i], b[i])
    ensures DigestedAll(a) == DigestedAll(b)
  {
    if a != [] {
      assert SameDigested(a[0], b[0]);
      SameBytes(a[1..], b[1..]);
    }
  }
}
