/** The round trip for strings as texts: sequences of scalar values. */
module CorpusTexts {
  import opened CorpusCache
  import opened Utf8
  import opened Wrappers

  /** The encoding of a text, not too long for its length to be written. */
  ghost predicate IsShortText(s: Str) {
    |s| < 0x1_0000_0000 && IsText(s)
  }

  ghost predicate AllShortTexts(list: seq<Str>) {
    |list| < 0x1_0000_0000 && forall i :: 0 <= i < |list| ==> IsShortText(list[i])
  }

  ghost predicate IsNoneOrText(s: Option<Str>) {
    s.Some? ==> IsShortText(s.value)
  }

  /** Every string of a chunk that is stored is a text, and its numbers fit. */
  ghost predicate IsTextChunk(c: Chunk) {
    && IsShortText(c.source) && IsShortText(c.document) && c.index < 0x1_0000_0000 && AllShortTexts(c.headings)
    && IsShortText(c.content) && IsShortText(c.title) && IsShortText(c.url)
    && IsNoneOrText(c.space) && IsNoneOrText(c.author) && IsNoneOrText(c.authorId)
    && (c.updated.Some? ==> -0x8000_0000_0000_0000 <= c.updated.value < 0x8000_0000_0000_0000)
    && AllShortTexts(c.labels)
  }

  ghost predicate IsTextHeader(h: Header) {
    && IsShortText(h.corpusDigest) && IsShortText(h.modelId) && IsShortText(h.manifestDigest) && IsShortText(h.seedDigest)
    && h.maxTokens < 0x1_0000_0000 && h.truncatedChunks < 0x1_0000_0000
  }

  lemma FitsExactly(s: Str)
    ensures Fits(s) <==> IsShortText(s)
  {
    hide IsUtf8, IsText;
    IsUtf8Exactly(s);
  }

  lemma ListFitsExactly(list: seq<Str>)
    ensures ListFits(list) <==> AllShortTexts(list)
  {
    hide Fits, IsShortText;
    forall i | 0 <= i < |list| ensures Fits(list[i]) <==> IsShortText(list[i]) {
      FitsExactly(list[i]);
    }
  }

  lemma OptFitsExactly(s: Option<Str>)
    ensures OptFits(s) <==> IsNoneOrText(s)
  {
    hide Fits, IsShortText;
    if s.Some? {
      FitsExactly(s.value);
    }
  }

  lemma ChunkFitsExactly(c: Chunk)
    ensures ChunkFits(c) <==> IsTextChunk(c)
  {
    hide Fits, IsShortText, ListFits, AllShortTexts, OptFits, IsNoneOrText;
    FitsExactly(c.source);
    FitsExactly(c.document);
    ListFitsExactly(c.headings);
    FitsExactly(c.content);
    FitsExactly(c.title);
    FitsExactly(c.url);
    OptFitsExactly(c.space);
    OptFitsExactly(c.author);
    OptFitsExactly(c.authorId);
    ListFitsExactly(c.labels);
  }

  lemma HeaderFitsExactly(h: Header)
    ensures HeaderFits(h) <==> IsTextHeader(h)
  {
    hide Fits, IsShortText;
    FitsExactly(h.corpusDigest);
    FitsExactly(h.modelId);
    FitsExactly(h.manifestDigest);
    FitsExactly(h.seedDigest);
  }

  /** What is written of a string reads back if it is a text, and is refused for what it is
      if not. */
  lemma StringsExactly(s: Str, rest: Str)
    requires |s| < 0x1_0000_0000
    ensures GetStr(PutStr(s) + rest) == if IsText(s) then Ok((s, rest)) else Err(NotUtf8)
  {
    hide IsUtf8, IsText, PutU32, GetU32;
    IsUtf8Exactly(s);
    Shift(PutU32(|s|), s, rest);
    U32Back(|s|, s + rest);
    BytesBack(s, rest);
  }

  /** A corpus of texts, with vectors of its width, loads as what was saved, whatever
      follows it in the file. */
  lemma TextsLoad(c: Corpus, trailing: Str)
    requires IsTextHeader(c.header) && c.dims < 0x1_0000_0000 && |c.chunks| < 0x1_0000_0000
    requires forall i :: 0 <= i < |c.chunks| ==> IsTextChunk(c.chunks[i])
    requires |c.chunks| <= |c.vectors|
    requires forall i, k :: 0 <= i < |c.vectors| && 0 <= k < |c.vectors[i]| ==> c.vectors[i][k] < 0x1_0000_0000
    requires forall i :: 0 <= i < |c.vectors| ==> |c.vectors[i]| == c.dims
    ensures Loaded(Saved(c) + trailing) ==
            Ok(Corpus(StoredAll(c.chunks), c.vectors[..|c.chunks|], c.dims, SavedHeader(c)))
  {
    hide HeaderFits, IsTextHeader, ChunkFits, IsTextChunk, Loaded, Saved, StoredAll;
    HeaderFitsExactly(c.header);
    forall i | 0 <= i < |c.chunks| ensures ChunkFits(c.chunks[i]) {
      ChunkFitsExactly(c.chunks[i]);
    }
    LoadOfSave(c, trailing);
  }

  /** A character of four bytes is a text, a surrogate or a number past the last scalar is
      not. */
  lemma SomeTexts()
    ensures IsText([0xf0, 0x9f, 0x98, 0x80]) && IsText([0xe2, 0x82, 0xac]) && IsText([0xc3, 0xa9])
    ensures !IsText([0xed, 0xa0, 0x80]) && !IsText([0xf4, 0x90, 0x80, 0x80]) && !IsText([0xc0, 0x80])
    ensures !IsText([0x80]) && !IsText([0xe2, 0x82])
  {
    assert Encoded(0x1f600) == [0xf0, 0x9f, 0x98, 0x80] && Encoded(0x20ac) == [0xe2, 0x82, 0xac];
    assert Encoded(0xe9) == [0xc3, 0xa9];
    OneCharacter(0x1f600);
    OneCharacter(0x20ac);
    OneCharacter(0xe9);
    IsUtf8Exactly([0xed, 0xa0, 0x80]);
    IsUtf8Exactly([0xf4, 0x90, 0x80, 0x80]);
    IsUtf8Exactly([0xc0, 0x80]);
    IsUtf8Exactly([0x80]);
    IsUtf8Exactly([0xe2, 0x82]);
  }

  lemma OneCharacter(c: nat)
    requires IsScalar(c)
    ensures IsText(Encoded(c))
  {
    hide Encoded;
    assert [c][1..] == [];
    assert AllScalars([c]) && EncodedAll([c]) == Encoded(c);
  }
}
