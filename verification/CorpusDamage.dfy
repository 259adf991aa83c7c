/** What a cut file, or one with vectors of the wrong width, loads as. */
module CorpusDamage {
  import opened Bits
  import opened CorpusCache
  import opened Numbers
  import opened Utf8
  import opened Wrappers

  // ----- Reading part of a file -----

  /** How the parse of some bytes stands to that of the same bytes and `more`, when the
      latter succeeds: it gives the same value, or comes to the end too soon. */
  ghost predicate Cut<T>(short: Read<T>, long: Read<T>, more: seq<Byte>) {
    long.Ok? ==>
      || short == Err(UnexpectedEnd)
      || (short.Ok? && long.value == (short.value.0, short.value.1 + more))
  }

  lemma BytesCut(s: seq<Byte>, n: nat, more: seq<Byte>)
    ensures Cut(GetBytes(s, n), GetBytes(s + more, n), more)
  {
    if |s| >= n {
      assert (s + more)[..n] == s[..n] && (s + more)[n..] == s[n..] + more;
    }
  }

  lemma U32Cut(s: seq<Byte>, more: seq<Byte>)
    ensures Cut(GetU32(s), GetU32(s + more), more)
  {
    BytesCut(s, 4, more);
  }

  lemma I64Cut(s: seq<Byte>, more: seq<Byte>)
    ensures Cut(GetI64(s), GetI64(s + more), more)
  {
    BytesCut(s, 8, more);
  }

  lemma BoolCut(s: seq<Byte>, more: seq<Byte>)
    ensures Cut(GetBool(s), GetBool(s + more), more)
  {
    BytesCut(s, 1, more);
  }

  lemma StrCut(s: seq<Byte>, more: seq<Byte>)
    ensures Cut(GetStr(s), GetStr(s + more), more)
  {
    hide GetU32, GetBytes, IsUtf8;
    U32Cut(s, more);
    if GetU32(s).Ok? {
      BytesCut(GetU32(s).value.1, GetU32(s).value.0, more);
    }
  }

  lemma OptCut(s: seq<Byte>, more: seq<Byte>)
    ensures Cut(GetOpt(s), GetOpt(s + more), more)
  {
    hide GetStr;
    BytesCut(s, 1, more);
    if GetBytes(s, 1).Ok? {
      StrCut(GetBytes(s, 1).value.1, more);
    }
  }

  lemma {:induction false} AllCut(s: seq<Byte>, n: nat, more: seq<Byte>)
    ensures Cut(GetAll(s, n), GetAll(s + more, n), more)
  {
    hide GetStr;
    if n > 0 {
      AllCut(s, n - 1, more);
      if GetAll(s, n - 1).Ok? {
        StrCut(GetAll(s, n - 1).value.1, more);
      }
    }
  }

  lemma ListCut(s: seq<Byte>, more: seq<Byte>)
    ensures Cut(GetList(s), GetList(s + more), more)
  {
    hide GetU32, GetAll;
    U32Cut(s, more);
    if GetU32(s).Ok? {
      AllCut(GetU32(s).value.1, GetU32(s).value.0, more);
    }
  }

  lemma {:induction false} VectorCut(s: seq<Byte>, n: nat, more: seq<Byte>)
    ensures Cut(GetVector(s, n), GetVector(s + more, n), more)
  {
    hide GetU32;
    if n > 0 {
      VectorCut(s, n - 1, more);
      if GetVector(s, n - 1).Ok? {
        U32Cut(GetVector(s, n - 1).value.1, more);
      }
    }
  }

  lemma PlaceCut(s: seq<Byte>, more: seq<Byte>)
    ensures Cut(GetPlace(s), GetPlace(s + more), more)
  {
    hide GetStr, GetU32, GetList;
    StrCut(s, more);
    if GetStr(s).Ok? {
      var s1 := GetStr(s).value.1;
      StrCut(s1, more);
      if GetStr(s1).Ok? {
        var s2 := GetStr(s1).value.1;
        U32Cut(s2, more);
        if GetU32(s2).Ok? {
          ListCut(GetU32(s2).value.1, more);
        }
      }
    }
  }

  lemma BodyCut(s: seq<Byte>, more: seq<Byte>)
    ensures Cut(GetBody(s), GetBody(s + more), more)
  {
    hide GetStr;
    StrCut(s, more);
    if GetStr(s).Ok? {
      var s1 := GetStr(s).value.1;
      StrCut(s1, more);
      if GetStr(s1).Ok? {
        StrCut(GetStr(s1).value.1, more);
      }
    }
  }

  lemma OwnersCut(s: seq<Byte>, more: seq<Byte>)
    ensures Cut(GetOwners(s), GetOwners(s + more), more)
  {
    hide GetOpt;
    OptCut(s, more);
    if GetOpt(s).Ok? {
      var s1 := GetOpt(s).value.1;
      OptCut(s1, more);
      if GetOpt(s1).Ok? {
        OptCut(GetOpt(s1).value.1, more);
      }
    }
  }

  lemma MarksCut(s: seq<Byte>, more: seq<Byte>)
    ensures Cut(GetMarks(s), GetMarks(s + more), more)
  {
    hide GetI64, GetList, GetBool;
    I64Cut(s, more);
    if GetI64(s).Ok? {
      var s1 := GetI64(s).value.1;
      ListCut(s1, more);
      if GetList(s1).Ok? {
        BoolCut(GetList(s1).value.1, more);
      }
    }
  }

  lemma ChunkCut(s: seq<Byte>, dims: nat, more: seq<Byte>)
    ensures Cut(GetChunk(s, dims), GetChunk(s + more, dims), more)
  {
    hide GetPlace, GetBody, GetOwners, GetMarks, GetVector;
    PlaceCut(s, more);
    if GetPlace(s).Ok? {
      var s1 := GetPlace(s).value.1;
      BodyCut(s1, more);
      if GetBody(s1).Ok? {
        var s2 := GetBody(s1).value.1;
        OwnersCut(s2, more);
        if GetOwners(s2).Ok? {
          var s3 := GetOwners(s2).value.1;
          MarksCut(s3, more);
          if GetMarks(s3).Ok? {
            VectorCut(GetMarks(s3).value.1, dims, more);
          }
        }
      }
    }
  }

  lemma {:induction false} ChunksCut(s: seq<Byte>, n: nat, dims: nat, more: seq<Byte>)
    ensures Cut(GetChunks(s, n, dims), GetChunks(s + more, n, dims), more)
  {
    hide GetChunk;
    if n > 0 {
      ChunksCut(s, n - 1, dims, more);
      if GetChunks(s, n - 1, dims).Ok? {
        ChunkCut(GetChunks(s, n - 1, dims).value.1, dims, more);
      }
    }
  }

  lemma VersionCut(s: seq<Byte>, more: seq<Byte>)
    ensures Cut(GetVersion(s), GetVersion(s + more), more)
  {
    BytesCut(s, 8, more);
  }

  lemma OriginCut(s: seq<Byte>, dims: nat, count: nat, more: seq<Byte>)
    ensures Cut(GetOrigin(s, dims, count), GetOrigin(s + more, dims, count), more)
  {
    hide GetStr, GetU32;
    StrCut(s, more);
    if GetStr(s).Ok? {
      var s1 := GetStr(s).value.1;
      StrCut(s1, more);
      if GetStr(s1).Ok? {
        var s2 := GetStr(s1).value.1;
        StrCut(s2, more);
        if GetStr(s2).Ok? {
          var s3 := GetStr(s2).value.1;
          StrCut(s3, more);
          if GetStr(s3).Ok? {
            var s4 := GetStr(s3).value.1;
            U32Cut(s4, more);
            if GetU32(s4).Ok? {
              U32Cut(GetU32(s4).value.1, more);
            }
          }
        }
      }
    }
  }

  lemma HeaderCut(s: seq<Byte>, more: seq<Byte>)
    ensures Cut(GetHeader(s), GetHeader(s + more), more)
  {
    hide GetVersion, GetU32, GetOrigin;
    VersionCut(s, more);
    if GetVersion(s).Ok? {
      var s1 := GetVersion(s).value.1;
      U32Cut(s1, more);
      if GetU32(s1).Ok? {
        var s2 := GetU32(s1).value.1;
        U32Cut(s2, more);
        if GetU32(s2).Ok? {
          OriginCut(GetU32(s2).value.1, GetU32(s1).value.0, GetU32(s2).value.0, more);
        }
      }
    }
  }

  // ----- Cut files -----

  /** Where all of a file is read, none of its proper prefixes loads. */
  lemma PrefixRunsOut(file: seq<Byte>, k: nat, h: Header, data: seq<Byte>)
    requires k < |file| && GetHeader(file) == Ok((h, data))
    requires GetChunks(data, h.chunkCount, h.dims).Ok? && GetChunks(data, h.chunkCount, h.dims).value.1 == []
    ensures Loaded(file[..k]) == Err(UnexpectedEnd)
  {
    hide GetHeader, GetChunks;
    var more := file[k..];
    assert file[..k] + more == file;
    HeaderCut(file[..k], more);
    if GetHeader(file[..k]).Ok? {
      ChunksCut(GetHeader(file[..k]).value.1, h.chunkCount, h.dims, more);
    }
  }

  /** No proper prefix of a saved file loads: each comes to its end too soon. */
  lemma PrefixesDoNotLoad(c: Corpus, k: nat)
    requires HeaderFits(c.header) && DataFits(c) && |c.chunks| <= |c.vectors|
    ensures k < |Saved(c)| ==> Loaded(Saved(c)[..k]) == Err(UnexpectedEnd)
    ensures k < |LegacySaved(c)| ==> Loaded(LegacySaved(c)[..k]) == Err(UnexpectedEnd)
  {
    hide GetHeader, GetChunks, PutShape, PutOrigin, PutChunks, HeaderFits, ChunkFits, VectorFits, Stored, Loaded;
    var data := PutChunks(c.chunks, c.vectors, |c.chunks|);
    HeaderBack(c, data);
    ChunksBack(c.chunks, c.vectors, |c.chunks|, c.dims, []);
    assert data + [] == data;
    if k < |Saved(c)| {
      PrefixRunsOut(Saved(c), k, SavedHeader(c), data);
    }
    if k < |LegacySaved(c)| {
      PrefixRunsOut(LegacySaved(c), k, Legacy(c.dims, |c.chunks|), data);
    }
  }

  /** The bytes of a saved file before its chunks. */
  function SavedOrigin(c: Corpus): seq<Byte> {
    MAGIC_V4 + PutShape(c.dims, |c.chunks|) + PutOrigin(c.header)
  }

  /** The header alone is read from a cut file exactly when all its bytes are there,
      and then it is the header of the whole. */
  lemma HeaderOfAPrefix(c: Corpus, k: nat)
    requires HeaderFits(c.header) && DataFits(c) && k <= |Saved(c)|
    ensures HeaderOf(Saved(c)[..k]) ==
            if k >= |SavedOrigin(c)| then Ok(SavedHeader(c)) else Err(UnexpectedEnd)
  {
    hide GetHeader, PutShape, PutOrigin, PutChunks, HeaderFits, ChunkFits, VectorFits;
    var file := Saved(c);
    var data := PutChunks(c.chunks, c.vectors, Min(|c.chunks|, |c.vectors|));
    assert file == SavedOrigin(c) + data;
    HeaderBack(c, data);
    HeaderBack(c, []);
    assert SavedOrigin(c) + [] == SavedOrigin(c);
    if k >= |SavedOrigin(c)| {
      assert file[..k] == SavedOrigin(c) + data[..k - |SavedOrigin(c)|];
      HeaderBack(c, data[..k - |SavedOrigin(c)|]);
    } else {
      assert file[..k] + SavedOrigin(c)[k..] == SavedOrigin(c);
      HeaderCut(file[..k], SavedOrigin(c)[k..]);
    }
  }

  // ----- Vectors of the wrong width -----

  predicate Values(v: Vector) {
    forall i :: 0 <= i < |v| ==> v[i] < U32
  }

  lemma {:induction false} VectorOfTwo(v: Vector, k: nat)
    requires k <= |v|
    ensures PutVector(v) == PutVector(v[..k]) + PutVector(v[k..])
    decreases |v|
  {
    hide PutU32;
    if k < |v| {
      var front := v[..|v| - 1];
      VectorOfTwo(front, k);
      assert front[..k] == v[..k] && front[k..] == v[k..][..|v| - k - 1];
    } else {
      assert v[..k] == v && v[k..] == [];
    }
  }

  lemma {:induction false} ReadInTwo(s: seq<Byte>, k: nat, n: nat)
    requires GetVector(s, k).Ok?
    ensures GetVector(s, k + n) ==
            match GetVector(GetVector(s, k).value.1, n)
            case Err(fault) => Err(fault)
            case Ok(last) => Ok((GetVector(s, k).value.0 + last.0, last.1))
  {
    hide GetU32;
    var (front, t) := GetVector(s, k).value;
    if n == 0 {
      assert front + [] == front;
    } else {
      ReadInTwo(s, k, n - 1);
      if GetVector(t, n - 1).Ok? {
        var (middle, u) := GetVector(t, n - 1).value;
        assert GetU32(u).Ok? ==> front + (middle + [GetU32(u).value.0]) == front + middle + [GetU32(u).value.0];
      }
    }
  }

  /** The values a vector has too many are read as the beginning of what comes
      next. */
  lemma SurplusIsReadOn(c: Chunk, v: Vector, dims: nat, rest: seq<Byte>)
    requires ChunkFits(c) && Values(v) && |v| >= dims
    ensures GetChunk(PutChunk(c, v) + rest, dims) == Ok(((Stored(c), v[..dims]), PutVector(v[dims..]) + rest))
  {
    hide GetChunk, PutVector, PutPlace, PutBody, PutOwners, PutMarks, ChunkFits, Stored;
    VectorOfTwo(v, dims);
    ChunkBack(c, v[..dims], dims, PutVector(v[dims..]) + rest);
    Shift(PutPlace(c) + PutBody(c) + PutOwners(c) + PutMarks(c), PutVector(v[..dims]), PutVector(v[dims..]));
    Shift(PutChunk(c, v[..dims]), PutVector(v[dims..]), rest);
  }

  /** The values a vector has too few are taken from what comes next. */
  lemma ShortageIsTaken(c: Chunk, v: Vector, dims: nat, rest: seq<Byte>)
    requires ChunkFits(c) && Values(v) && |v| <= dims
    ensures GetChunk(PutChunk(c, v) + rest, dims) ==
            match GetVector(rest, dims - |v|)
            case Err(fault) => Err(fault)
            case Ok(taken) => Ok(((Stored(c), v + taken.0), taken.1))
  {
    hide GetPlace, PutPlace, GetBody, PutBody, GetOwners, PutOwners, GetMarks, PutMarks, GetVector, PutVector, ChunkFits;
    var a, b, d, e, f := PutPlace(c), PutBody(c), PutOwners(c), PutMarks(c), PutVector(v);
    Shift(a + b + d + e, f, rest);
    Shift(a + b + d, e, f + rest);
    Shift(a + b, d, e + (f + rest));
    Shift(a, b, d + (e + (f + rest)));
    PlaceBack(c, b + (d + (e + (f + rest))));
    BodyBack(c, d + (e + (f + rest)));
    OwnersBack(c, e + (f + rest));
    MarksBack(c, f + rest);
    VectorBack(v, rest);
    ReadInTwo(f + rest, |v|, dims - |v|);
  }

  /** With a last vector of another width the file loads exactly when that vector is not
      too narrow, and one that is too wide comes back without its last values. */
  lemma LastVectorDecides(c: Corpus, last: Vector)
    requires HeaderFits(c.header) && DataFits(c) && |c.chunks| == |c.vectors| > 0 && Values(last)
    ensures var n := |c.chunks| - 1;
            var odd := c.(vectors := c.vectors[n := last]);
            Loaded(Saved(odd)) ==
            if |last| < c.dims then Err(UnexpectedEnd)
            else Ok(Corpus(StoredAll(c.chunks), c.vectors[n := last[..c.dims]], c.dims, SavedHeader(c)))
  {
    hide GetHeader, GetChunk, PutChunk, PutShape, PutOrigin, HeaderFits, ChunkFits, VectorFits, Stored, GetVector, PutVector;
    var n := |c.chunks| - 1;
    var odd := c.(vectors := c.vectors[n := last]);
    var front, chunk := PutChunks(odd.chunks, odd.vectors, n), PutChunk(c.chunks[n], last);
    HeaderBack(odd, front + chunk);
    ChunksBack(odd.chunks, odd.vectors, n, c.dims, chunk);
    assert chunk + [] == chunk;
    if |last| < c.dims {
      ShortageIsTaken(c.chunks[n], last, c.dims, []);
      NothingHoldsNoVector(c.dims - |last|);
    } else {
      SurplusIsReadOn(c.chunks[n], last, c.dims, []);
      assert StoredAll(c.chunks) == StoredAll(c.chunks[..n]) + [Stored(c.chunks[n])];
      assert c.vectors[n := last[..c.dims]] == odd.vectors[..n] + [last[..c.dims]];
    }
  }

  lemma {:induction false} NothingHoldsNoVector(n: nat)
    requires n > 0
    ensures GetVector([], n) == Err(UnexpectedEnd)
  {
    if n > 1 {
      NothingHoldsNoVector(n - 1);
    }
  }
}
