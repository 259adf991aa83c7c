/** The write-ahead log checksum of the SQLite file format (section 4.2): a pair
    of 32-bit accumulators over whole 8-byte blocks, in a declared byte order. */
module WalChecksum {

  datatype ByteOrder = Big | Little

  /** The two accumulators. */
  datatype Sums = Sums(s0: bv32, s1: bv32)

  /** Four bytes, the lowest first, as a word. */
  function Word(b0: bv8, b1: bv8, b2: bv8, b3: bv8): bv32 {
    (b0 as bv32) | ((b1 as bv32) << 8) | ((b2 as bv32) << 16) | ((b3 as bv32) << 24)
  }

  function WordOf(bytes: seq<bv8>, order: ByteOrder): bv32
    requires |bytes| == 4
  {
    match order
    case Little => Word(bytes[0], bytes[1], bytes[2], bytes[3])
    case Big => Word(bytes[3], bytes[2], bytes[1], bytes[0])
  }

  /** Splits an 8-byte block into its two words. */
  function SplitBlock(block: seq<bv8>, order: ByteOrder): (bv32, bv32)
    requires |block| == 8
  {
    (WordOf(block[..4], order), WordOf(block[4..], order))
  }

  /** A sum that wraps at 32 bits. */
  function Add(a: bv32, b: bv32): bv32 {
    a + b
  }

  /** One block into the accumulators. */
  function Fold(s: Sums, first: bv32, second: bv32): Sums {
    var s0 := Add(Add(s.s0, first), s.s1);
    Sums(s0, Add(Add(s.s1, second), s0))
  }

  function FoldBlock(s: Sums, block: seq<bv8>, order: ByteOrder): Sums
    requires |block| == 8
  {
    var (first, second) := SplitBlock(block, order);
    Fold(s, first, second)
  }

  function FoldAll(s: Sums, data: seq<bv8>, order: ByteOrder): Sums
    requires |data| % 8 == 0
    decreases |data|
  {
    if data == [] then s else FoldAll(FoldBlock(s, data[..8], order), data[8..], order)
  }

  class Checksum {
    var s0: bv32
    var s1: bv32

    constructor (s0: bv32, s1: bv32)
      ensures Value() == Sums(s0, s1)
    {
      this.s0 := s0;
      this.s1 := s1;
    }

    ghost function Value(): Sums
      reads this
    {
      Sums(s0, s1)
    }

    /** Folds `data` into the checksum, or refuses it untouched when it is not a
        whole number of blocks. */
    method Update(data: seq<bv8>, order: ByteOrder) returns (ok: bool)
      modifies this
      ensures ok <==> |data| % 8 == 0
      ensures Value() == if |data| % 8 == 0 then FoldAll(old(Value()), data, order) else old(Value())
    {
      hide SplitBlock, Add;
      if |data| % 8 != 0 {
        return false;
      }
      var at: nat := 0;
      ghost var expected := FoldAll(Value(), data, order);
      assert data[0..] == data;
      while at < |data|
        invariant at <= |data| && at % 8 == 0
        invariant FoldAll(Value(), data[at..], order) == expected
      {
        assert data[at..][..8] == data[at..at + 8] && data[at..][8..] == data[at + 8..];
        var (first, second) := SplitBlock(data[at..at + 8], order);
        s0 := Add(Add(s0, first), s1);
        s1 := Add(Add(s1, second), s0);
        at := at + 8;
      }
      return true;
    }

    /** Folds `data` into a copy, leaving this checksum alone. */
    method Extended(data: seq<bv8>, order: ByteOrder) returns (ok: bool, next: Checksum)
      ensures fresh(next) && (ok <==> |data| % 8 == 0)
      ensures ok ==> next.Value() == FoldAll(Value(), data, order)
    {
      next := new Checksum(s0, s1);
      ok := next.Update(data, order);
    }
  }

  /** Checksums chain: two pieces give what the whole gives, in either order of
      bytes, so a frame may continue the frame before it. */
  lemma {:induction false} FoldAllConcat(s: Sums, a: seq<bv8>, b: seq<bv8>, order: ByteOrder)
    requires |a| % 8 == 0 && |b| % 8 == 0
    ensures FoldAll(s, a + b, order) == FoldAll(FoldAll(s, a, order), b, order)
    decreases |a|
  {
    hide FoldBlock;
    if a == [] {
      assert a + b == b;
    } else {
      assert (a + b)[..8] == a[..8] && (a + b)[8..] == a[8..] + b;
      FoldAllConcat(FoldBlock(s, a[..8], order), a[8..], b, order);
    }
  }

  function Byte0(w: bv32): bv8 {
    (w & 0xff) as bv8
  }

  function Byte1(w: bv32): bv8 {
    ((w >> 8) & 0xff) as bv8
  }

  function Byte2(w: bv32): bv8 {
    ((w >> 16) & 0xff) as bv8
  }

  function Byte3(w: bv32): bv8 {
    ((w >> 24) & 0xff) as bv8
  }

  lemma Byte0OfWord(b0: bv8, b1: bv8, b2: bv8, b3: bv8)
    ensures Byte0(Word(b0, b1, b2, b3)) == b0
  {
  }

  lemma Byte1OfWord(b0: bv8, b1: bv8, b2: bv8, b3: bv8)
    ensures Byte1(Word(b0, b1, b2, b3)) == b1
  {
  }

  lemma Byte2OfWord(b0: bv8, b1: bv8, b2: bv8, b3: bv8)
    ensures Byte2(Word(b0, b1, b2, b3)) == b2
  {
  }

  lemma Byte3OfWord(b0: bv8, b1: bv8, b2: bv8, b3: bv8)
    ensures Byte3(Word(b0, b1, b2, b3)) == b3
  {
  }

  lemma WordInjective(a: seq<bv8>, b: seq<bv8>, order: ByteOrder)
    requires |a| == |b| == 4 && WordOf(a, order) == WordOf(b, order)
    ensures a == b
  {
    hide Word, Byte0, Byte1, Byte2, Byte3;
    forall s: seq<bv8> | s == a || s == b
      ensures Byte0(Word(s[0], s[1], s[2], s[3])) == s[0] && Byte0(Word(s[3], s[2], s[1], s[0])) == s[3]
      ensures Byte1(Word(s[0], s[1], s[2], s[3])) == s[1] && Byte1(Word(s[3], s[2], s[1], s[0])) == s[2]
      ensures Byte2(Word(s[0], s[1], s[2], s[3])) == s[2] && Byte2(Word(s[3], s[2], s[1], s[0])) == s[1]
      ensures Byte3(Word(s[0], s[1], s[2], s[3])) == s[3] && Byte3(Word(s[3], s[2], s[1], s[0])) == s[0]
    {
      Byte0OfWord(s[0], s[1], s[2], s[3]);
      Byte1OfWord(s[0], s[1], s[2], s[3]);
      Byte2OfWord(s[0], s[1], s[2], s[3]);
      Byte3OfWord(s[0], s[1], s[2], s[3]);
      Byte0OfWord(s[3], s[2], s[1], s[0]);
      Byte1OfWord(s[3], s[2], s[1], s[0]);
      Byte2OfWord(s[3], s[2], s[1], s[0]);
      Byte3OfWord(s[3], s[2], s[1], s[0]);
    }
  }

  lemma AddInjective(a: bv32, b: bv32, c: bv32)
    ensures Add(a, c) == Add(b, c) ==> a == b
    ensures Add(c, a) == Add(c, b) ==> a == b
  {
  }

  /** For one state the accumulators tell every two blocks apart. */
  lemma FoldSeesBlock(s: Sums, f: bv32, g: bv32, f': bv32, g': bv32)
    requires Fold(s, f, g) == Fold(s, f', g')
    ensures f == f' && g == g'
  {
    hide Add;
    AddInjective(Add(s.s0, f), Add(s.s0, f'), s.s1);
    AddInjective(f, f', s.s0);
    AddInjective(Add(s.s1, g), Add(s.s1, g'), Add(Add(s.s0, f), s.s1));
    AddInjective(g, g', s.s1);
  }

  /** For one block they tell every two states apart. */
  lemma FoldKeepsStates(a: Sums, b: Sums, f: bv32, g: bv32)
    requires Fold(a, f, g) == Fold(b, f, g)
    ensures a == b
  {
    hide Add;
    AddInjective(Add(a.s1, g), Add(b.s1, g), Add(Add(a.s0, f), a.s1));
    AddInjective(a.s1, b.s1, g);
    AddInjective(Add(a.s0, f), Add(b.s0, f), a.s1);
    AddInjective(a.s0, b.s0, f);
  }

  lemma {:induction false} FoldAllInjective(a: Sums, b: Sums, data: seq<bv8>, order: ByteOrder)
    requires |data| % 8 == 0 && FoldAll(a, data, order) == FoldAll(b, data, order)
    ensures a == b
    decreases |data|
  {
    hide Fold, SplitBlock;
    if data != [] {
      FoldAllInjective(FoldBlock(a, data[..8], order), FoldBlock(b, data[..8], order), data[8..], order);
      var (f, g) := SplitBlock(data[..8], order);
      FoldKeepsStates(a, b, f, g);
    }
  }

  /** Replacing the contents of any one block always changes the checksum. */
  lemma BlockChangeIsSeen(s: Sums, before: seq<bv8>, x: seq<bv8>, y: seq<bv8>, after: seq<bv8>, order: ByteOrder)
    requires |before| % 8 == 0 && |after| % 8 == 0 && |x| == |y| == 8 && x != y
    ensures FoldAll(s, before + x + after, order) != FoldAll(s, before + y + after, order)
  {
    hide Fold, FoldAll, WordOf;
    var t := FoldAll(s, before, order);
    FoldAllConcat(s, before + x, after, order);
    FoldAllConcat(s, before, x, order);
    FoldAllConcat(s, before + y, after, order);
    FoldAllConcat(s, before, y, order);
    OneBlock(t, x, order);
    OneBlock(t, y, order);
    if FoldAll(FoldBlock(t, x, order), after, order) == FoldAll(FoldBlock(t, y, order), after, order) {
      FoldAllInjective(FoldBlock(t, x, order), FoldBlock(t, y, order), after, order);
      var (f, g) := SplitBlock(x, order);
      var (f', g') := SplitBlock(y, order);
      FoldSeesBlock(t, f, g, f', g');
      WordInjective(x[..4], y[..4], order);
      WordInjective(x[4..], y[4..], order);
      HalvesAgree(x, y);
    }
  }

  lemma HalvesAgree(x: seq<bv8>, y: seq<bv8>)
    requires |x| == |y| == 8 && x[..4] == y[..4] && x[4..] == y[4..]
    ensures x == y
  {
    assert x == x[..4] + x[4..] && y == y[..4] + y[4..];
  }

  lemma OneBlock(s: Sums, block: seq<bv8>, order: ByteOrder)
    requires |block| == 8
    ensures FoldAll(s, block, order) == FoldBlock(s, block, order)
  {
    hide FoldBlock;
    assert block[..8] == block && block[8..] == [];
  }

  // ----- The words and the sums, as the format defines them -----

  /** Four bytes, each but the first weighing 256 times the one before. */
  function Weighed(b0: bv8, b1: bv8, b2: bv8, b3: bv8): bv32 {
    (b0 as bv32) + 0x100 * (b1 as bv32) + 0x1_0000 * (b2 as bv32) + 0x100_0000 * (b3 as bv32)
  }

  lemma WordIsSum(b0: bv8, b1: bv8, b2: bv8, b3: bv8)
    ensures Word(b0, b1, b2, b3) == Weighed(b0, b1, b2, b3)
  {
  }

  /** In little-endian order the first byte weighs least, in big-endian order the last. */
  lemma WordWeights(b: seq<bv8>)
    requires |b| == 4
    ensures WordOf(b, Little) == Weighed(b[0], b[1], b[2], b[3])
    ensures WordOf(b, Big) == Weighed(b[3], b[2], b[1], b[0])
  {
    hide Word, Weighed;
    WordIsSum(b[0], b[1], b[2], b[3]);
    WordIsSum(b[3], b[2], b[1], b[0]);
  }

  /** The data as words, two of four bytes each to a block. */
  function WordsOf(data: seq<bv8>, order: ByteOrder): seq<bv32>
    requires |data| % 8 == 0
  {
    if data == [] then []
    else
      var last := data[|data| - 8..];
      WordsOf(data[..|data| - 8], order) + [WordOf(last[..4], order), WordOf(last[4..], order)]
  }

  /** A word taken as often as the `k`th Fibonacci number says. */
  function FibonacciTimes(k: nat, w: bv32): bv32 {
    if k == 0 then 0 else if k == 1 then w else Add(FibonacciTimes(k - 1, w), FibonacciTimes(k - 2, w))
  }

  /** The words weighted by Fibonacci numbers, counted back from the last, which has the `k`th. */
  function Weighted(words: seq<bv32>, k: nat): bv32
    decreases |words|
  {
    if words == [] then 0
    else Add(FibonacciTimes(k, words[|words| - 1]), Weighted(words[..|words| - 1], k + 1))
  }

  lemma AddComm(a: bv32, b: bv32)
    ensures Add(a, b) == Add(b, a)
  {
  }

  lemma AddAssoc(a: bv32, b: bv32, c: bv32)
    ensures Add(Add(a, b), c) == Add(a, Add(b, c))
  {
    calc {
      Add(Add(a, b), c);
      Add(a, b) + c;
      (a + b) + c;
      a + (b + c);
      a + Add(b, c);
      Add(a, Add(b, c));
    }
  }

  lemma AddFour(a: bv32, b: bv32, c: bv32, d: bv32)
    ensures Add(Add(a, b), Add(c, d)) == Add(Add(a, c), Add(b, d))
  {
    hide Add;
    AddAssoc(a, b, Add(c, d));
    AddAssoc(b, c, d);
    AddComm(b, c);
    AddAssoc(c, b, d);
    AddAssoc(a, c, Add(b, d));
  }

  lemma {:induction false} WeightsAddUp(words: seq<bv32>, k: nat)
    ensures Weighted(words, k + 2) == Add(Weighted(words, k + 1), Weighted(words, k))
    decreases |words|
  {
    if words == [] {
      assert Add(0, 0) == 0;
    } else {
      var front, last := words[..|words| - 1], words[|words| - 1];
      hide Add;
      WeightsAddUp(front, k + 1);
      AddFour(FibonacciTimes(k + 1, last), FibonacciTimes(k, last), Weighted(front, k + 2), Weighted(front, k + 1));
    }
  }

  lemma WeightedBlock(words: seq<bv32>, x: bv32, y: bv32)
    ensures Fold(Sums(Weighted(words, 0), Weighted(words, 1)), x, y)
         == Sums(Weighted(words + [x, y], 0), Weighted(words + [x, y], 1))
  {
    var all, front := words + [x, y], words + [x];
    assert all[..|all| - 1] == front && front[..|front| - 1] == words;
    WeightsAddUp(words, 0);
    WeightsAddUp(words, 1);
    assert Weighted(all, 0) == Add(0, Add(x, Weighted(words, 2)));
    assert FibonacciTimes(2, x) == Add(x, 0);
    assert Weighted(all, 1) == Add(y, Add(Add(x, 0), Weighted(words, 3)));
    hide Weighted, Add;
    Gathered(x, y, Weighted(words, 0), Weighted(words, 1));
  }

  lemma Gathered(x: bv32, y: bv32, s0: bv32, s1: bv32)
    ensures Add(Add(s0, x), s1) == Add(0, Add(x, Add(s1, s0)))
    ensures Add(Add(s1, y), Add(Add(s0, x), s1)) == Add(y, Add(Add(x, 0), Add(Add(s1, s0), s1)))
  {
    AddZero(x);
    var sum := Add(x, Add(s1, s0));
    AddZero(sum);
    hide Add;
    AddComm(s0, x);
    AddAssoc(x, s0, s1);
    AddComm(s0, s1);
    AddComm(s1, y);
    AddAssoc(y, s1, sum);
    AddComm(s1, sum);
    AddAssoc(x, Add(s1, s0), s1);
  }

  lemma AddZero(x: bv32)
    ensures Add(0, x) == x && Add(x, 0) == x
  {
  }

  /** What the sums stand for before any data: two words that would give them. */
  lemma StartIsWeighted(s: Sums, d: bv32)
    requires Add(s.s0, d) == s.s1
    ensures s == Sums(Weighted([s.s0, d], 0), Weighted([s.s0, d], 1))
  {
    assert Weighted([], 0) == 0 && Weighted([], 1) == 0;
    AddZero(s.s0);
    AddZero(d);
    AddZero(0);
    hide Add, Weighted;
    WeightedBlock([], s.s0, d);
    assert [] + [s.s0, d] == [s.s0, d];
    AddComm(d, s.s0);
  }

  lemma LastBlock(s: Sums, front: seq<bv8>, last: seq<bv8>, order: ByteOrder)
    requires |front| % 8 == 0 && |last| == 8
    ensures FoldAll(s, front + last, order)
         == Fold(FoldAll(s, front, order), WordOf(last[..4], order), WordOf(last[4..], order))
  {
    hide Fold, WordOf;
    FoldAllConcat(s, front, last, order);
    assert last[..8] == last && last[8..] == [];
  }

  lemma LastWords(front: seq<bv8>, last: seq<bv8>, order: ByteOrder)
    requires |front| % 8 == 0 && |last| == 8
    ensures WordsOf(front + last, order) == WordsOf(front, order) + [WordOf(last[..4], order), WordOf(last[4..], order)]
  {
    hide WordOf;
    var data := front + last;
    assert data[..|data| - 8] == front && data[|data| - 8..] == last;
  }

  ghost predicate IsWeighted(s: Sums, words: seq<bv32>) {
    s == Sums(Weighted(words, 0), Weighted(words, 1))
  }

  lemma WeightedNext(s: Sums, start: seq<bv32>, front: seq<bv32>, x: bv32, y: bv32)
    requires IsWeighted(s, start + front)
    ensures IsWeighted(Fold(s, x, y), start + (front + [x, y]))
  {
    hide Weighted, Fold;
    WeightedBlock(start + front, x, y);
    assert start + (front + [x, y]) == (start + front) + [x, y];
  }

  lemma WeightedMore(s: Sums, start: seq<bv32>, front: seq<bv8>, last: seq<bv8>, order: ByteOrder)
    requires |front| % 8 == 0 && |last| == 8
    requires IsWeighted(FoldAll(s, front, order), start + WordsOf(front, order))
    ensures IsWeighted(FoldAll(s, front + last, order), start + WordsOf(front + last, order))
  {
    hide *;
    LastBlock(s, front, last, order);
    LastWords(front, last, order);
    WeightedNext(FoldAll(s, front, order), start, WordsOf(front, order), WordOf(last[..4], order), WordOf(last[4..], order));
  }

  lemma NothingFolded(s: Sums, order: ByteOrder)
    ensures FoldAll(s, [], order) == s && WordsOf([], order) == []
  {
  }

  /** Both sums are the words weighted by Fibonacci numbers in reverse, the last word
      having weight 0 in the first sum and 1 in the second, as the file format states.
      Sums to start from count as two words in front. */
  lemma {:induction false} SumsAreFibonacciWeighted(s: Sums, d: bv32, data: seq<bv8>, order: ByteOrder)
    requires |data| % 8 == 0 && Add(s.s0, d) == s.s1
    ensures IsWeighted(FoldAll(s, data, order), [s.s0, d] + WordsOf(data, order))
    decreases |data|
  {
    hide Weighted, WordOf, Fold, Add, FoldBlock, FoldAll, WordsOf;
    if data == [] {
      StartIsWeighted(s, d);
      NothingFolded(s, order);
      assert [s.s0, d] + [] == [s.s0, d];
    } else {
      hide IsWeighted;
      var front, last := data[..|data| - 8], data[|data| - 8..];
      assert data == front + last;
      SumsAreFibonacciWeighted(s, d, front, order);
      WeightedMore(s, [s.s0, d], front, last, order);
    }
  }
}
