/** A small cache file and the bytes of its corpus's digest, byte by byte: the marks, the
    order of the fields, how a string, a list, an absent string and an absent time are
    written, and which end of a number comes first. */
module KnownCache {
  import opened Bits
  import opened CorpusCache
  import opened LittleEndian
  import opened Wrappers

  lemma {:induction false} SmallNumber(v: nat, n: nat)
    requires v < 256 && 1 <= n
    ensures Encode(v, n) == [v] + Encode(0, n - 1)
  {
  }

  lemma ZeroBytes()
    ensures Encode(0, 3) == [0, 0, 0] && Encode(0, 7) == [0, 0, 0, 0, 0, 0, 0]
  {
    assert Encode(0, 1) == [0];
    assert Encode(0, 4) == [0] + Encode(0, 3);
    assert Encode(0, 7) == [0, 0, 0] + Encode(0, 4);
  }

  lemma SmallU32(v: nat)
    requires v < 256
    ensures PutU32(v) == [v, 0, 0, 0]
  {
    ZeroBytes();
    SmallNumber(v, 4);
  }

  lemma SmallU64(v: nat)
    requires v < 256
    ensures PutU64(v) == [v, 0, 0, 0, 0, 0, 0, 0]
  {
    ZeroBytes();
    SmallNumber(v, 8);
  }

  /** A string of one letter: its length and the letter. */
  function Letter(c: Byte): seq<Byte> {
    [1, 0, 0, 0, c]
  }

  lemma OneLetter(c: Byte)
    ensures PutStr([c]) == Letter(c)
  {
    SmallU32(1);
  }

  lemma OneOption(c: Byte)
    ensures PutOpt(Some([c])) == [1, 1, 0, 0, 0, c] && PutOpt(None) == [0]
  {
    OneLetter(c);
  }

  lemma OneInList(c: Byte)
    ensures PutList([[c]]) == [1, 0, 0, 0, 1, 0, 0, 0, c]
  {
    SmallU32(1);
    OneLetter(c);
    assert [[c]][..0] == [];
    assert PutAll([[c]]) == PutAll([]) + PutStr([c]);
  }

  lemma OneField(c: Byte)
    ensures Field([c]) == [1, 0, 0, 0, 0, 0, 0, 0, c]
  {
    SmallU64(1);
  }

  lemma TwoInList(c: Byte, d: Byte)
    ensures PutList([[c], [d]]) == [2, 0, 0, 0] + (Letter(c) + Letter(d))
  {
    SmallU32(2);
    OneLetter(c);
    OneLetter(d);
    hide PutStr, PutU32, Letter;
    assert [[c], [d]][..1] == [[c]] && [[c]][..0] == [];
    assert PutAll([[c]]) == PutAll([]) + Letter(c) == Letter(c);
    assert PutAll([[c], [d]]) == PutAll([[c]]) + Letter(d);
  }

  function KnownChunk(): Chunk {
    Chunk(['a' as int], ['b' as int], 2, [['c' as int]], ['d' as int], ['e' as int], ['f' as int],
          Some(['g' as int]), None, Some(['h' as int]), None, [['i' as int], ['j' as int]], true, None, [], [])
  }

  function KnownHeader(): Header {
    Header(4, ['k' as int], ['l' as int], ['m' as int], 1, 7, 1, 3, ['n' as int])
  }

  lemma KnownPlace()
    ensures PutPlace(KnownChunk()) == PlaceBytes()
  {
    OneLetter(0x61);
    OneLetter(0x62);
    OneInList(0x63);
    SmallU32(2);
    hide PutStr, PutU32, PutList, PutOpt, Letter;
  }

  lemma KnownBody()
    ensures PutBody(KnownChunk()) == BodyBytes()
  {
    OneLetter(0x64);
    OneLetter(0x65);
    OneLetter(0x66);
    hide PutStr, PutU32, PutList, PutOpt, Letter;
  }

  lemma KnownOwners()
    ensures PutOwners(KnownChunk()) == OwnersBytes()
  {
    OneOption(0x67);
    OneOption(0x68);
    hide PutStr, PutU32, PutList, PutOpt, Letter;
  }

  /** No time is the number whose bytes are zero but for the top bit. */
  lemma NoTime()
    ensures PutI64(Stamp(None)) == [0, 0, 0, 0, 0, 0, 0, 0x80]
  {
    var v: nat := 0x8000_0000_0000_0000;
    assert Stamp(None) == I64_MIN;
    assert PutI64(Stamp(None)) == Encode(v, 8);
    assert Encode(v, 8) == [0, 0] + Encode(0x8000_0000_0000, 6);
    assert Encode(0x8000_0000_0000, 6) == [0, 0] + Encode(0x8000_0000, 4);
    assert Encode(0x8000_0000, 4) == [0, 0] + Encode(0x8000, 2);
    assert Encode(0x8000, 2) == [0, 0x80];
  }

  lemma KnownMarks()
    ensures PutMarks(KnownChunk()) == MarksBytes()
  {
    NoTime();
    TwoInList(0x69, 0x6a);
    hide PutI64, PutList, Stamp, Letter;
    assert PutBool(true) == [1];
  }

  /** A float's bits, the lowest byte first. */
  lemma KnownVector()
    ensures PutVector([0x0403_0201]) == [1, 2, 3, 4]
  {
    assert Encode(0x0403_0201, 4) == [1, 2] + Encode(0x0403, 2);
    assert Encode(0x0403, 2) == [3, 4];
    assert [0x0403_0201][..0] == [];
    assert PutVector([0x0403_0201]) == PutVector([]) + PutU32(0x0403_0201);
  }

  function OriginBytes(): seq<Byte> {
    Letter(0x6b) + Letter(0x6c) + Letter(0x6d) + Letter(0x6e) + [7, 0, 0, 0] + [3, 0, 0, 0]
  }

  lemma KnownOrigin()
    ensures PutOrigin(KnownHeader()) == OriginBytes()
  {
    OneLetter(0x6b);
    OneLetter(0x6c);
    OneLetter(0x6d);
    OneLetter(0x6e);
    SmallU32(7);
    SmallU32(3);
    hide PutStr, PutU32, Letter;
  }

  function PlaceBytes(): seq<Byte> {
    Letter(0x61) + Letter(0x62) + [2, 0, 0, 0] + [1, 0, 0, 0, 1, 0, 0, 0, 0x63]
  }

  function BodyBytes(): seq<Byte> {
    Letter(0x64) + Letter(0x65) + Letter(0x66)
  }

  function OwnersBytes(): seq<Byte> {
    [1, 1, 0, 0, 0, 0x67] + [0] + [1, 1, 0, 0, 0, 0x68]
  }

  function MarksBytes(): seq<Byte> {
    [0, 0, 0, 0, 0, 0, 0, 0x80] + ([2, 0, 0, 0] + (Letter(0x69) + Letter(0x6a))) + [1]
  }

  /** "INLCACH4", the width and the count. */
  function ShapeBytes(): seq<Byte> {
    [0x49, 0x4e, 0x4c, 0x43, 0x41, 0x43, 0x48, 0x34, 1, 0, 0, 0, 1, 0, 0, 0]
  }

  lemma ShapeIs()
    ensures MAGIC_V4 + PutShape(1, 1) == ShapeBytes()
    ensures MAGIC_V3 == [0x52, 0x44, 0x42, 0x43, 0x41, 0x43, 0x48, 0x33]
  {
    SmallU32(1);
  }

  lemma KnownChunkBytes()
    ensures PutChunk(KnownChunk(), [0x0403_0201]) == PlaceBytes() + BodyBytes() + OwnersBytes() + MarksBytes() + [1, 2, 3, 4]
  {
    hide PutPlace, PutBody, PutOwners, PutMarks, PutVector, KnownChunk;
    KnownPlace();
    KnownBody();
    KnownOwners();
    KnownMarks();
    KnownVector();
  }

  /** The file of one chunk, byte by byte. */
  lemma KnownFile()
    ensures Saved(Corpus([KnownChunk()], [[0x0403_0201]], 1, KnownHeader()))
         == ShapeBytes() + OriginBytes() + (PlaceBytes() + BodyBytes() + OwnersBytes() + MarksBytes() + [1, 2, 3, 4])
  {
    var chunks, vectors := [KnownChunk()], [[0x0403_0201]];
    OneChunk(chunks, vectors);
    KnownChunkBytes();
    KnownOrigin();
    ShapeIs();
    hide PutChunk, PutOrigin, PutShape, OriginBytes, ShapeBytes, KnownHeader;
  }

  lemma OneChunk(chunks: seq<Chunk>, vectors: seq<Vector>)
    requires |chunks| == |vectors| == 1
    ensures PutChunks(chunks, vectors, 1) == PutChunk(chunks[0], vectors[0])
  {
    hide PutChunk;
    assert PutChunks(chunks, vectors, 0) == [];
  }

  /** What that corpus's digest is taken over: "inillucent-corpus-v1", the number of
      chunks, three fields with their lengths before them, and the index. */
  lemma KnownDigest()
    ensures Digested([KnownChunk()])
         == [0x69, 0x6e, 0x69, 0x6c, 0x6c, 0x75, 0x63, 0x65, 0x6e, 0x74,
             0x2d, 0x63, 0x6f, 0x72, 0x70, 0x75, 0x73, 0x2d, 0x76, 0x31]
            + [1, 0, 0, 0, 0, 0, 0, 0]
            + ([1, 0, 0, 0, 0, 0, 0, 0, 0x61] + [1, 0, 0, 0, 0, 0, 0, 0, 0x62] + [1, 0, 0, 0, 0, 0, 0, 0, 0x64]
               + [2, 0, 0, 0, 0, 0, 0, 0])
  {
    OneField(0x61);
    OneField(0x62);
    OneField(0x64);
    SmallU64(1);
    SmallU64(2);
    hide PutStr, PutOpt, PutList, Field, PutU64;
    var chunks := [KnownChunk()];
    assert chunks[1..] == [];
    assert DigestedAll(chunks) == DigestedChunk(chunks[0]) + DigestedAll([]);
  }
}
