/** The hasher of the engine's own tables: eight bytes a fold, every fold a
    bijection in the word and in the state, so that keys which differ in one
    chunk never collide. */
module TableHash {
  import opened Bits
  import opened LittleEndian
  import opened U64

  const SEED: Word := 0x51_7c_c1_b7_27_22_0a_95
  const WORD: Word := 0x9E37_79B9_7F4A_7C15
  const ROTATE := 5

  /** One word into the state. */
  function FoldWord(state: Word, word: Word): Word {
    Mul(Xor(RotateLeft(state, ROTATE), Mul(word, WORD)), SEED)
  }

  lemma DecodeInjective(a: seq<Byte>, b: seq<Byte>)
    requires |a| == |b| && Decode(a) == Decode(b)
    ensures a == b
  {
    EncodeOfDecode(a);
    EncodeOfDecode(b);
  }

  function WordOf(chunk: seq<Byte>): Word
    requires |chunk| == 8
  {
    DecodeBound(chunk);
    Spans();
    Decode(chunk)
  }

  /** A short tail zero-extended to a chunk. */
  function Padded(tail: seq<Byte>): (chunk: seq<Byte>)
    requires |tail| <= 8
    ensures |chunk| == 8 && tail <= chunk
  {
    tail + seq(8 - |tail|, _ => 0)
  }

  /** The chunks of a byte string, the last zero-extended, into the state. */
  function FoldBytes(state: Word, bytes: seq<Byte>): Word
    decreases |bytes|
  {
    if |bytes| >= 8 then FoldBytes(FoldWord(state, WordOf(bytes[..8])), bytes[8..])
    else if bytes != [] then FoldWord(state, WordOf(Padded(bytes)))
    else state
  }

  /** A byte string into the state: its chunks and then its length. */
  function Hash(state: Word, bytes: seq<Byte>): Word {
    FoldWord(FoldBytes(state, bytes), |bytes| % MODULUS)
  }

  class Hasher {
    var state: Word

    constructor ()
      ensures state == SEED
    {
      state := SEED;
    }

    method Fold(word: Word)
      modifies this
      ensures state == FoldWord(old(state), word)
    {
      state := Xor(RotateLeft(state, ROTATE), Mul(word, WORD));
      state := Mul(state, SEED);
    }

    /** Folds a byte string in, eight bytes at a time, then the remainder as one
        zero-extended word, then the length. */
    method Write(bytes: seq<Byte>)
      modifies this
      ensures state == Hash(old(state), bytes)
    {
      hide FoldWord, WordOf, Padded;
      var rest := bytes;
      while |rest| >= 8
        invariant FoldBytes(state, rest) == FoldBytes(old(state), bytes)
        decreases |rest|
      {
        Fold(WordOf(rest[..8]));
        rest := rest[8..];
      }
      if rest != [] {
        Fold(WordOf(Padded(rest)));
      }
      Fold(|bytes| % MODULUS);
    }

    method Finish() returns (hash: Word)
      ensures hash == state
    {
      hash := state;
    }
  }

  lemma MultipliersHaveInverses()
    ensures (SEED * 0x2040_003d_7809_70bd) % MODULUS == 1
    ensures (WORD * 0xf1de_83e1_9937_733d) % MODULUS == 1
  {
  }

  /** For one state a fold tells every two words apart. */
  lemma FoldSeesWord(state: Word, x: Word, y: Word)
    requires FoldWord(state, x) == FoldWord(state, y)
    ensures x == y
  {
    hide Xor, RotateLeft, Mul;
    MultipliersHaveInverses();
    var turned := RotateLeft(state, ROTATE);
    MulInjective(Xor(turned, Mul(x, WORD)), Xor(turned, Mul(y, WORD)), SEED, 0x2040_003d_7809_70bd);
    XorWordInjective(Mul(x, WORD), Mul(y, WORD), turned);
    MulInjective(x, y, WORD, 0xf1de_83e1_9937_733d);
  }

  lemma XorWordInjective(a: Word, b: Word, c: Word)
    ensures Xor(a, c) == Xor(b, c) ==> a == b
    ensures Xor(c, a) == Xor(c, b) ==> a == b
  {
    XorInjective(a, b, c);
  }

  /** For one word a fold tells every two states apart. */
  lemma FoldKeepsStates(a: Word, b: Word, word: Word)
    requires FoldWord(a, word) == FoldWord(b, word)
    ensures a == b
  {
    hide Xor, RotateLeft, Mul;
    MultipliersHaveInverses();
    var w := Mul(word, WORD);
    MulInjective(Xor(RotateLeft(a, ROTATE), w), Xor(RotateLeft(b, ROTATE), w), SEED, 0x2040_003d_7809_70bd);
    XorWordInjective(RotateLeft(a, ROTATE), RotateLeft(b, ROTATE), w);
    RotateLeftInjective(a, b, ROTATE);
  }

  lemma {:induction false} FoldBytesKeepsStates(a: Word, b: Word, bytes: seq<Byte>)
    requires FoldBytes(a, bytes) == FoldBytes(b, bytes)
    ensures a == b
    decreases |bytes|
  {
    hide FoldWord, WordOf, Padded;
    if |bytes| >= 8 {
      var w := WordOf(bytes[..8]);
      FoldBytesKeepsStates(FoldWord(a, w), FoldWord(b, w), bytes[8..]);
      FoldKeepsStates(a, b, w);
    } else if bytes != [] {
      FoldKeepsStates(a, b, WordOf(Padded(bytes)));
    }
  }

  lemma {:induction false} FoldBytesConcat(state: Word, a: seq<Byte>, b: seq<Byte>)
    requires |a| % 8 == 0
    ensures FoldBytes(state, a + b) == FoldBytes(FoldBytes(state, a), b)
    decreases |a|
  {
    hide FoldWord, WordOf, Padded;
    if a == [] {
      assert a + b == b;
    } else {
      assert (a + b)[..8] == a[..8] && (a + b)[8..] == a[8..] + b;
      FoldBytesConcat(FoldWord(state, WordOf(a[..8])), a[8..], b);
    }
  }

  lemma ChunkSeen(state: Word, x: seq<Byte>, y: seq<Byte>)
    requires |x| == |y| <= 8 && FoldBytes(state, x) == FoldBytes(state, y)
    ensures x == y
  {
    hide FoldWord, Decode, Encode, Padded;
    if |x| == 8 {
      assert x[..8] == x && x[8..] == [] && y[..8] == y && y[8..] == [];
      FoldSeesWord(state, WordOf(x), WordOf(y));
      DecodeInjective(x, y);
    } else if x != [] {
      FoldSeesWord(state, WordOf(Padded(x)), WordOf(Padded(y)));
      DecodeInjective(Padded(x), Padded(y));
      assert x == Padded(x)[..|x|] && y == Padded(y)[..|y|];
    }
  }

  /** The chunks a key is cut in: whole ones, and at its end a shorter one. */
  predicate IsChunk(x: seq<Byte>, after: seq<Byte>) {
    |x| == 8 || (|x| < 8 && after == [])
  }

  /** Two keys of one length that agree outside one chunk, the padded tail
      included, have the same hash exactly when they are the same key. */
  lemma OneChunkNeverCollides(state: Word, before: seq<Byte>, x: seq<Byte>, y: seq<Byte>, after: seq<Byte>)
    requires |before| % 8 == 0 && |x| == |y| && IsChunk(x, after)
    ensures Hash(state, before + x + after) == Hash(state, before + y + after) <==> x == y
  {
    hide FoldWord, FoldBytes;
    if Hash(state, before + x + after) == Hash(state, before + y + after) {
      FoldKeepsStates(FoldBytes(state, before + x + after), FoldBytes(state, before + y + after),
                      |before + x + after| % MODULUS);
      Regroup2(before, x, after);
      Regroup2(before, y, after);
      FoldBytesConcat(state, before, x + after);
      FoldBytesConcat(state, before, y + after);
      var t := FoldBytes(state, before);
      if |x| == 8 {
        FoldBytesConcat(t, x, after);
        FoldBytesConcat(t, y, after);
        FoldBytesKeepsStates(FoldBytes(t, x), FoldBytes(t, y), after);
      } else {
        assert x + after == x && y + after == y;
      }
      ChunkSeen(t, x, y);
    }
  }

  /** Short keys of one length never collide. */
  lemma ShortKeysNeverCollide(state: Word, x: seq<Byte>, y: seq<Byte>)
    requires |x| == |y| <= 8 && x != y
    ensures Hash(state, x) != Hash(state, y)
  {
    hide Hash;
    OneChunkNeverCollides(state, [], x, y, []);
    assert [] + x + [] == x && [] + y + [] == y;
  }

  /** Zero-extending makes a tail and the tail with a zero after it one word;
      the length folded in afterwards tells the two keys apart. */
  lemma LengthTellsPaddingApart(state: Word, whole: seq<Byte>, tail: seq<Byte>)
    requires |whole| % 8 == 0 && 1 <= |tail| < 8 && |whole| + |tail| + 1 < MODULUS
    ensures FoldBytes(state, whole + tail) == FoldBytes(state, whole + (tail + [0]))
    ensures Hash(state, whole + tail) != Hash(state, whole + (tail + [0]))
  {
    hide FoldWord, Decode, Encode;
    FoldBytesConcat(state, whole, tail);
    FoldBytesConcat(state, whole, tail + [0]);
    var t := FoldBytes(state, whole);
    assert Padded(tail) == Padded(tail + [0]);
    if |tail| == 7 {
      assert Padded(tail) == tail + [0];
      assert (tail + [0])[..8] == tail + [0] && (tail + [0])[8..] == [];
    }
    var folded := FoldBytes(state, whole + tail);
    var n, m := |whole + tail| % MODULUS, |whole + (tail + [0])| % MODULUS;
    assert n + 1 == m;
    if FoldWord(folded, n) == FoldWord(folded, m) {
      FoldSeesWord(folded, n, m);
    }
  }

  /** Why the state does not start at zero: zero words leave it there. */
  lemma ZeroIsAFixedPoint()
    ensures FoldWord(0, 0) == 0 && SEED != 0
  {
    hide Xor, RotateLeft, Mul;
    ZeroStaysZero(ROTATE, WORD);
    ZeroStaysZero(ROTATE, SEED);
  }

  /** From any other state zero words never lead to zero. */
  lemma NothingElseBecomesZero(state: Word)
    requires state != 0
    ensures FoldWord(state, 0) != 0
  {
    hide FoldWord;
    ZeroIsAFixedPoint();
    if FoldWord(state, 0) == 0 {
      FoldKeepsStates(state, 0, 0);
    }
  }
}
