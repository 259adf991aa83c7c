/** Streams whose decoding is known, given by their bytes: a stored block, a fixed block
    that another engine wrote, and a dynamic block that uses every symbol of the
    code-length code and every length of code. Each fixes the tables it reads. */
module KnownStreams {
  import opened Bits
  import opened BitStreams
  import opened DeflateFormat
  import opened Huffman
  import opened InflateSpec
  import opened Spelling
  import opened Wrappers
  import Deflater

  // ----- A stored block -----

  lemma StoredNumber(b: seq<Byte>)
    requires b == [0x01, 0x01, 0x00, 0xfe, 0xff, 0x61]
    ensures NumberFrom(b, 0, 0) == 0x61_ff_fe_00_01_01
  {
    assert NumberFrom(b, 6, 0) == 0;
    assert NumberFrom(b, 4, 0) == 0x61_ff;
    assert NumberFrom(b, 2, 0) == 0x61_ff_fe_00;
  }

  /** A stored block of one byte. */
  lemma StoredInflates()
    ensures Inflate(StreamBits([0x01, 0x01, 0x00, 0xfe, 0xff, 0x61])) == Ok([0x61])
  {
    StoredIs([0x01, 0x01, 0x00, 0xfe, 0xff, 0x61], [0x61]);
  }

  lemma StoredIs(bytes: seq<Byte>, data: seq<Byte>)
    requires bytes == [0x01, 0x01, 0x00, 0xfe, 0xff, 0x61] && data == [0x61]
    ensures Inflate(StreamBits(bytes)) == Ok(data)
  {
    hide Inflate, StreamBits, LsbBits, NumberFrom, StoredBlock;
    StoredNumber(bytes);
    WholeStream(bytes);
    StoredByteAt(0, 0x61);
    LastBlock(0, 0x0c_3f_ff_c0_00_20, 45, data, []);
  }

  // ----- A thousand zeroes -----

  function Zeroes(n: nat): (s: seq<Byte>)
    ensures |s| == n && forall i :: 0 <= i < n ==> s[i] == 0
  {
    seq(n, _ => 0)
  }

  lemma FixedCodeIs(symbol: nat)
    requires symbol < 286
    ensures IsCode(FixedLiterals(), symbol, Deflater.FixedCode(symbol), FixedLiteralLength(symbol))
  {
    hide HasCode, CodeOf;
    Deflater.FixedCodeIsCanonical(symbol);
  }

  lemma FiveBitCode(code: nat)
    requires code < 30
    ensures IsCode(FixedDistances(), code, code, 5)
  {
    hide First, CountUpTo;
    Deflater.DistanceCodeIsCanonical(code);
    Deflater.NoShortDistances(5);
    Deflater.FiveCounts(code, 5);
  }

  /** A longer run of zeroes: a match at distance one. */
  lemma MoreZeroes(n: nat, t: Token)
    requires n > 0 && t.Match? && WellFormed(t) && MatchDistance(t) == 1
    ensures Applies(Zeroes(n), t) && Apply(Zeroes(n), t) == Zeroes(n + MatchLength(t))
  {
    hide MatchLength, MatchDistance, WellFormed, Copied;
    AppliesMatch(Zeroes(n), t);
    CopiedIsUnique(Zeroes(n), 1, Zeroes(n + MatchLength(t)));
  }

  /** The body of a zlib stream SQLite wrote. */
  function ThousandBody(): seq<Byte> {
    [0x63, 0x60, 0x18, 0x05, 0xa3, 0x60, 0x14, 0x0c, 0x77, 0x00, 0x00]
  }

  lemma ThousandNumber(b: seq<Byte>)
    requires b == ThousandBody()
    ensures |b| == 11 && NumberFrom(b, 0, 0) == 0x77_0c_14_60_a3_05_18_60_63
  {
    assert NumberFrom(b, 8, 0) == 0x77;
    assert NumberFrom(b, 4, 0) == 0x77_0c_14_60_a3;
  }

  lemma FixedZeroAt(y: nat, m: nat, out: seq<Byte>)
    ensures Compressed(FixedLiterals(), FixedDistances(), LsbBits(0x0c + 256 * y, 8 + m), out)
         == Compressed(FixedLiterals(), FixedDistances(), LsbBits(y, m), out + [0])
  {
    hide Compressed, LsbBits, IsCode, Gathered;
    Pow2Of8();
    EightBits(0x0c);
    FixedCodeIs(0);
    LiteralAt(FixedLiterals(), FixedDistances(), 0, 0x0c, 8, y, m, out);
  }

  lemma FixedEndAt(y: nat, m: nat, out: seq<Byte>)
    ensures Compressed(FixedLiterals(), FixedDistances(), LsbBits(128 * y, 7 + m), out) == Done(out, LsbBits(y, m))
  {
    hide Compressed, LsbBits, IsCode, Gathered;
    SmallPowers();
    NoBits(7);
    FixedCodeIs(256);
    EndAt(FixedLiterals(), FixedDistances(), 0, 7, y, m, out);
  }

  lemma ZeroesThen(t: Token, a: nat, y: nat)
    requires t.Match? && WellFormed(t) && t.distanceCode == t.distanceExtra == 0
    requires t.lengthCode == 28 || t.lengthCode == 26
    ensures LengthExtra(t.lengthCode) == if t.lengthCode == 28 then 0 else 5
    ensures DistanceExtra(0) == 0
    ensures MatchThen(t, a, 8, 0, 5, y) ==
            if t.lengthCode == 28 then a + 0x100 * (t.lengthExtra + 32 * y)
            else a + 0x100 * (t.lengthExtra + 0x400 * y)
  {
    SmallPowers();
    Pow2Of8();
    assert LengthExtra(28) == 0 && LengthExtra(26) == 5 && DistanceExtra(0) == 0;
    hide LengthExtra, DistanceExtra, Pow2, WellFormed;
    assert Then(0, 0, y) == y;
    assert Then(0, 5, y) == 32 * y;
  }

  lemma SpelledA3()
    ensures Gathered(0xa3, 8, 0) == 0xc5
  {
    hide Gathered;
    EightBits(0xa3);
  }

  lemma SpelledC3()
    ensures Gathered(0xc3, 8, 0) == 0xc3
  {
    hide Gathered;
    EightBits(0xc3);
  }

  /** The codes of the two lengths, 258 and those from 195, and of the distance one. */
  lemma ZeroCodes()
    ensures IsCode(FixedLiterals(), 285, Gathered(0xa3, 8, 0), 8) && IsCode(FixedLiterals(), 283, Gathered(0xc3, 8, 0), 8)
    ensures IsCode(FixedDistances(), 0, Gathered(0, 5, 0), 5)
  {
    hide IsCode, Gathered;
    SpelledA3();
    SpelledC3();
    FixedCodeIs(285);
    FixedCodeIs(283);
    NoBits(5);
    FiveBitCode(0);
  }

  /** 258 zeroes more: code 285, in eight bits, and distance code 0 in five. */
  lemma LongestAt(y: nat, m: nat, n: nat)
    requires n > 0
    ensures Compressed(FixedLiterals(), FixedDistances(), LsbBits(0xa3 + 0x2000 * y, 13 + m), Zeroes(n))
         == Compressed(FixedLiterals(), FixedDistances(), LsbBits(y, m), Zeroes(n + 258))
  {
    LongestMatch();
    Pow2Of8();
    SmallPowers();
    hide *;
    var t := Match(28, 0, 0, 0);
    ZeroCodes();
    MoreZeroes(n, t);
    ZeroesThen(t, 0xa3, y);
    MatchAt(FixedLiterals(), FixedDistances(), t, 0xa3, 8, 0, 5, y, m, Zeroes(n));
  }

  lemma LongestMatch()
    ensures var t := Match(28, 0, 0, 0); WellFormed(t) && MatchLength(t) == 258 && MatchDistance(t) == 1
  {
  }

  lemma LastMatch()
    ensures var t := Match(26, 29, 0, 0); WellFormed(t) && MatchLength(t) == 224 && MatchDistance(t) == 1
  {
    SmallPowers();
  }

  /** 224 zeroes more: code 283, in eight bits, 29 in five, and distance code 0 in five. */
  lemma LastMatchAt(y: nat, m: nat, n: nat)
    requires n > 0
    ensures Compressed(FixedLiterals(), FixedDistances(), LsbBits(0xc3 + 0x1d00 + 0x4_0000 * y, 18 + m), Zeroes(n))
         == Compressed(FixedLiterals(), FixedDistances(), LsbBits(y, m), Zeroes(n + 224))
  {
    LastMatch();
    Pow2Of8();
    SmallPowers();
    hide *;
    var t := Match(26, 29, 0, 0);
    ZeroCodes();
    MoreZeroes(n, t);
    ZeroesThen(t, 0xc3, y);
    MatchAt(FixedLiterals(), FixedDistances(), t, 0xc3, 8, 0, 5, y, m, Zeroes(n));
  }

  lemma ThousandCompressed()
    ensures Compressed(FixedLiterals(), FixedDistances(), LsbBits(0xee1828c1460a30c0c, 85), []) == Done(Zeroes(1000), LsbBits(0, 5))
  {
    hide Compressed, LsbBits;
    FixedZeroAt(0xee1828c1460a30c, 77, []);
    FixedZeroAt(0xee1828c1460a3, 69, [0]);
    assert [] + [0] == [0] && [0] + [0] == Zeroes(2);
    LongestAt(0x770c1460a3, 56, 2);
    LongestAt(0x3b860a3, 43, 260);
    LongestAt(0x1dc3, 30, 518);
    LastMatchAt(0x0, 12, 776);
    FixedEndAt(0, 5, Zeroes(1000));
  }

  lemma FixedBody(s: seq<Bit>)
    ensures BlockBody(1, s, []) == Compressed(FixedLiterals(), FixedDistances(), s, [])
  {
  }

  lemma ThousandBlock(data: seq<Byte>)
    requires data == Zeroes(1000)
    ensures BlockBody(1, LsbBits(0xee1828c1460a30c0c, 85), []) == Done(data, LsbBits(0, 5))
  {
    hide *;
    FixedBody(LsbBits(0xee1828c1460a30c0c, 85));
    ThousandCompressed();
  }

  lemma ThousandIs(bytes: seq<Byte>, data: seq<Byte>)
    requires bytes == ThousandBody() && data == Zeroes(1000)
    ensures Inflate(StreamBits(bytes)) == Ok(data)
  {
    hide *;
    ThousandNumber(bytes);
    WholeStream(bytes);
    ThousandBlock(data);
    LastBlock(1, 0xee1828c1460a30c0c, 85, data, LsbBits(0, 5));
  }

  /** That stream inflates to a thousand zeroes. */
  lemma ThousandInflates()
    ensures Inflate(StreamBits(ThousandBody())) == Ok(Zeroes(1000))
  {
    hide *;
    ThousandIs(ThousandBody(), Zeroes(1000));
  }

  // ----- A dynamic block with a code of every length -----

  /** Its code-length code: eight symbols of four bits, eight of five, and the
      three runs in three, four and four. */
  function Width(s: nat): Byte {
    if s < 8 then 4 else if s < 16 then 5 else if s == 16 then 3 else 4
  }

  function Widths(): (widths: seq<Byte>)
    ensures |widths| == 19
  {
    seq(19, s requires 0 <= s => Width(s))
  }

  lemma {:induction false} WidthCounts(n: nat, l: nat)
    requires n <= 19
    ensures CountUpTo(Widths(), n, l) ==
            if l == 3 then Deflater.Clip(16, n, 17)
            else if l == 4 then Deflater.Clip(0, n, 8) + Deflater.Clip(17, n, 19)
            else if l == 5 then Deflater.Clip(8, n, 16)
            else 0
  {
    if n != 0 {
      WidthCounts(n - 1, l);
    }
  }

  lemma WidthFirsts()
    ensures First(Widths(), 3) == 0 && First(Widths(), 4) == 2 && First(Widths(), 5) == 24
  {
    WidthCounts(19, 1);
    WidthCounts(19, 2);
    WidthCounts(19, 3);
    WidthCounts(19, 4);
    hide CountUpTo, Widths;
    assert First(Widths(), 2) == 0 && First(Widths(), 3) == 0;
  }

  /** A symbol's code with its first bit lowest. */
  function Spelled(s: nat): nat
    requires s < 19
  {
    if s < 8 then Nibble(2 + s)
    else if s < 16 then 1 + 2 * Nibble(s)
    else if s == 16 then 0
    else Nibble(s - 7)
  }

  lemma WidthCode(s: nat)
    requires s < 19
    ensures Spelled(s) < Pow2(Width(s)) && IsCode(Widths(), s, Gathered(Spelled(s), Width(s), 0), Width(s))
  {
    var v := if s < 8 then 2 + s else if s < 16 then 16 + s else if s == 16 then 0 else s - 7;
    SpelledIs(s, v);
    WidthCodeOf(s, v);
  }

  lemma WidthCodeOf(s: nat, v: nat)
    requires s < 19 && v == if s < 8 then 2 + s else if s < 16 then 16 + s else if s == 16 then 0 else s - 7
    ensures IsCode(Widths(), s, v, Width(s))
  {
    WidthFirsts();
    WidthCounts(s, Width(s));
    SmallPowers();
    hide First, CountUpTo, Pow2;
  }

  lemma SpelledIs(s: nat, v: nat)
    requires s < 19 && v == if s < 8 then 2 + s else if s < 16 then 16 + s else if s == 16 then 0 else s - 7
    ensures Spelled(s) < Pow2(Width(s)) && Gathered(Spelled(s), Width(s), 0) == v
  {
    SmallPowers();
    if s == 16 {
      NoBits(3);
    } else {
      hide Pow2;
      GatherNibble(if s < 8 || s > 16 then v else v - 16);
    }
  }

  lemma GatherNibble(v: nat)
    requires v < 16
    ensures Nibble(v) < 16 && Gathered(Nibble(v), 4, 0) == v && Gathered(1 + 2 * Nibble(v), 5, 0) == 16 + v
  {
    hide *;
    NibbleTwice(v);
    GatherWhole(Nibble(v));
  }

  lemma GatherWhole(w: nat)
    requires w < 16
    ensures Gathered(w, 4, 0) == Nibble(w) && Gathered(1 + 2 * w, 5, 0) == 16 + Nibble(w)
  {
    GatherFour(w, 4, 0);
    GatherFour(w, 4, 1);
    hide Nibble;
    assert w / 16 == 0 && (1 + 2 * w) / 2 == w;
    assert Gathered(1 + 2 * w, 5, 0) == Gathered(w, 4, 1);
  }

  lemma NibbleTwice(v: nat)
    requires v < 16
    ensures Nibble(v) < 16 && Nibble(Nibble(v)) == v
  {
    var a, b, c, d := v / 8, v / 4 % 2, v / 2 % 2, v % 2;
    assert v == 8 * a + 4 * b + 2 * c + d;
    NibbleOf(a, b, c, d);
    NibbleOf(d, c, b, a);
  }

  lemma NibbleOf(a: Bit, b: Bit, c: Bit, d: Bit)
    ensures Nibble(8 * a + 4 * b + 2 * c + d) == 8 * d + 4 * c + 2 * b + a
  {
    var v := 8 * a + 4 * b + 2 * c + d;
    assert v / 2 == 4 * a + 2 * b + c && v / 4 == 2 * a + b && v / 8 == a;
  }

  /** The code lengths it spells: one literal for each length from 1 to 14, the
      end of the block and the shortest match with 15, and four distances with 2. */
  function LengthAt(i: nat): Byte {
    if i < 14 then i + 1 else if i < 256 then 0 else if i < 258 then 15 else 2
  }

  function Lengths(n: nat): (lengths: seq<Byte>)
    ensures |lengths| == n
  {
    seq(n, i requires 0 <= i => LengthAt(i))
  }

  lemma OneAt(n: nat, y: nat, m: nat)
    requires n < 262
    ensures LengthAt(n) < 16
    ensures ReadRuns(Widths(), 262, Lengths(n),
                     LsbBits(Then(Spelled(LengthAt(n)), Width(LengthAt(n)), y), Width(LengthAt(n)) + m))
         == ReadRuns(Widths(), 262, Lengths(n + 1), LsbBits(y, m))
  {
    assert LengthAt(n) < 16 && Lengths(n + 1) == Lengths(n) + [LengthAt(n)];
    hide ReadRuns, LsbBits, Lengths, LengthAt, Spelled, Width, Then, Gathered, IsCode, Pow2;
    WidthCode(LengthAt(n));
    SameAt(Widths(), 262, Lengths(n), LengthAt(n), Spelled(LengthAt(n)), Width(LengthAt(n)), y, m);
  }

  /** The lengths from `n` up to `k` are what one run stands for. */
  predicate IsRun(n: nat, k: nat, run: Run) {
    match run
    case Same(_) => false
    case Again(extra) => 259 <= n && k <= 262 && k == n + 3 + extra && extra < 4
    case Zeros(extra) => 14 <= n && k <= 256 && k == n + 3 + extra && extra < 8
    case ManyZeros(extra) => 14 <= n && k <= 256 && k == n + 11 + extra && extra < 128
  }

  lemma RunGoesOn(n: nat, k: nat, run: Run)
    requires IsRun(n, k, run)
    ensures n < k && RunApplies(Lengths(n), run) && ApplyRun(Lengths(n), run) == Lengths(k)
  {
  }

  lemma SeveralAt(n: nat, k: nat, run: Run, y: nat, m: nat)
    requires IsRun(n, k, run)
    ensures ReadRuns(Widths(), 262, Lengths(n),
                     LsbBits(Then(Spelled(RunSymbol(run)), Width(RunSymbol(run)), Then(run.extra, RunWidth(run), y)),
                             Width(RunSymbol(run)) + (RunWidth(run) + m)))
         == ReadRuns(Widths(), 262, Lengths(k), LsbBits(y, m))
  {
    hide ReadRuns, LsbBits, Lengths, LengthAt, Spelled, Width, Then, Gathered, IsCode, Pow2;
    RunGoesOn(n, k, run);
    hide RunApplies, ApplyRun;
    WidthCode(RunSymbol(run));
    RunAt(Widths(), 262, Lengths(n), run, Spelled(RunSymbol(run)), Width(RunSymbol(run)), y, m);
  }

  lemma FourAt(n: nat, s: nat, a: nat, y: nat, m: nat)
    requires n < 262 && LengthAt(n) == s < 8 && Nibble(2 + s) == a
    ensures ReadRuns(Widths(), 262, Lengths(n), LsbBits(a + 16 * y, 4 + m))
         == ReadRuns(Widths(), 262, Lengths(n + 1), LsbBits(y, m))
  {
    hide ReadRuns, LsbBits, Lengths, LengthAt, Widths, Nibble;
    SmallPowers();
    OneAt(n, y, m);
  }

  lemma FiveAt(n: nat, s: nat, a: nat, y: nat, m: nat)
    requires n < 262 && LengthAt(n) == s && 8 <= s < 16 && Nibble(s) == a
    ensures ReadRuns(Widths(), 262, Lengths(n), LsbBits(1 + 2 * a + 32 * y, 5 + m))
         == ReadRuns(Widths(), 262, Lengths(n + 1), LsbBits(y, m))
  {
    hide ReadRuns, LsbBits, Lengths, LengthAt, Widths, Nibble;
    SmallPowers();
    OneAt(n, y, m);
  }

  lemma AgainAt(n: nat, k: nat, extra: nat, y: nat, m: nat)
    requires IsRun(n, k, Again(extra))
    ensures ReadRuns(Widths(), 262, Lengths(n), LsbBits(8 * extra + 32 * y, 5 + m))
         == ReadRuns(Widths(), 262, Lengths(k), LsbBits(y, m))
  {
    hide ReadRuns, LsbBits, Lengths, Widths, Nibble, IsRun;
    SmallPowers();
    SeveralAt(n, k, Again(extra), y, m);
  }

  lemma ZerosAt(n: nat, k: nat, extra: nat, y: nat, m: nat)
    requires IsRun(n, k, Zeros(extra))
    ensures ReadRuns(Widths(), 262, Lengths(n), LsbBits(5 + 16 * extra + 128 * y, 7 + m))
         == ReadRuns(Widths(), 262, Lengths(k), LsbBits(y, m))
  {
    hide ReadRuns, LsbBits, Lengths, Widths, IsRun;
    SmallPowers();
    SeveralAt(n, k, Zeros(extra), y, m);
  }

  lemma ManyZerosAt(n: nat, k: nat, extra: nat, y: nat, m: nat)
    requires IsRun(n, k, ManyZeros(extra))
    ensures ReadRuns(Widths(), 262, Lengths(n), LsbBits(13 + 16 * extra + 0x800 * y, 11 + m))
         == ReadRuns(Widths(), 262, Lengths(k), LsbBits(y, m))
  {
    hide ReadRuns, LsbBits, Lengths, Widths, IsRun;
    SmallPowers();
    SeveralAt(n, k, ManyZeros(extra), y, m);
  }

  lemma RunsA()
    ensures ReadRuns(Widths(), 262, Lengths(0), LsbBits(0x3fffffffb4fff80bff4eb4b7febee7dae6391e6a2c, 174))
         == ReadRuns(Widths(), 262, Lengths(7), LsbBits(0x3fffffffb4fff80bff4eb4b7febee7dae63, 146))
  {
    hide ReadRuns, LsbBits, Lengths, Widths;
    FourAt(0, 1, 12, 0x3fffffffb4fff80bff4eb4b7febee7dae6391e6a2, 170);
    FourAt(1, 2, 2, 0x3fffffffb4fff80bff4eb4b7febee7dae6391e6a, 166);
    FourAt(2, 3, 10, 0x3fffffffb4fff80bff4eb4b7febee7dae6391e6, 162);
    FourAt(3, 4, 6, 0x3fffffffb4fff80bff4eb4b7febee7dae6391e, 158);
    FourAt(4, 5, 14, 0x3fffffffb4fff80bff4eb4b7febee7dae6391, 154);
    FourAt(5, 6, 1, 0x3fffffffb4fff80bff4eb4b7febee7dae639, 150);
    FourAt(6, 7, 9, 0x3fffffffb4fff80bff4eb4b7febee7dae63, 146);
  }

  lemma RunsB()
    ensures ReadRuns(Widths(), 262, Lengths(7), LsbBits(0x3fffffffb4fff80bff4eb4b7febee7dae63, 146))
         == ReadRuns(Widths(), 262, Lengths(10), LsbBits(0x7fffffff69fff017fe9d696ffd7dcfb, 131))
  {
    hide ReadRuns, LsbBits, Lengths, Widths;
    FiveAt(7, 8, 1, 0x1fffffffda7ffc05ffa75a5bff5f73ed73, 141);
    FiveAt(8, 9, 9, 0xfffffffed3ffe02ffd3ad2dffafb9f6b, 136);
    FiveAt(9, 10, 5, 0x7fffffff69fff017fe9d696ffd7dcfb, 131);
  }

  lemma RunsC()
    ensures ReadRuns(Widths(), 262, Lengths(10), LsbBits(0x7fffffff69fff017fe9d696ffd7dcfb, 131))
         == ReadRuns(Widths(), 262, Lengths(14), LsbBits(0x7fffffff69fff017fe9d696ffd, 111))
  {
    hide ReadRuns, LsbBits, Lengths, Widths;
    FiveAt(10, 11, 13, 0x3fffffffb4fff80bff4eb4b7febee7, 126);
    FiveAt(11, 12, 3, 0x1fffffffda7ffc05ffa75a5bff5f7, 121);
    FiveAt(12, 13, 11, 0xfffffffed3ffe02ffd3ad2dffaf, 116);
    FiveAt(13, 14, 7, 0x7fffffff69fff017fe9d696ffd, 111);
  }

  lemma RunsD()
    ensures ReadRuns(Widths(), 262, Lengths(14), LsbBits(0x7fffffff69fff017fe9d696ffd, 111))
         == ReadRuns(Widths(), 262, Lengths(262), LsbBits(0x7fffffff69fff, 59))
  {
    hide ReadRuns, LsbBits, Lengths, Widths;
    ManyZerosAt(14, 152, 127, 0xfffffffed3ffe02ffd3ad2d, 100);
    ManyZerosAt(152, 245, 82, 0x1fffffffda7ffc05ffa75, 89);
    ZerosAt(245, 255, 7, 0x3fffffffb4fff80bff4, 82);
    FourAt(255, 0, 4, 0x3fffffffb4fff80bff, 78);
    FiveAt(256, 15, 15, 0x1fffffffda7ffc05f, 73);
    FiveAt(257, 15, 15, 0xfffffffed3ffe02, 68);
    FourAt(258, 2, 2, 0xfffffffed3ffe0, 64);
    AgainAt(259, 262, 0, 0x7fffffff69fff, 59);
  }

  lemma LengthIs(i: nat)
    requires i < 258
    ensures Lengths(258)[i] == LengthAt(i)
  {
  }

  lemma ZeroBit(sofar: nat)
    ensures Gathered(0, 1, sofar) == 2 * sofar
  {
  }

  lemma {:induction false} LengthCounts(n: nat, l: nat)
    requires n <= 258 && 1 <= l <= 15
    ensures CountUpTo(Lengths(258), n, l) == if l < 15 then (if l <= n then 1 else 0) else Deflater.Clip(256, n, 258)
  {
    hide Lengths;
    if n != 0 {
      LengthCounts(n - 1, l);
      LengthIs(n - 1);
    }
  }

  lemma {:induction false} LengthFirsts(l: nat)
    requires 1 <= l <= 15
    ensures First(Lengths(258), l) == Pow2(l) - 2
  {
    hide CountUpTo, Lengths;
    if l == 1 {
      assert First(Lengths(258), 0) == 0 && Count(Lengths(258), 0) == 0;
    } else {
      LengthFirsts(l - 1);
      LengthCounts(258, l - 1);
    }
  }

  /** A code of `n` bits that are all one. */
  lemma {:induction false} Ones(n: nat, more: nat, sofar: nat)
    ensures Gathered(Pow2(n) - 1, n + more, sofar) == Gathered(0, more, Pow2(n) * sofar + Pow2(n) - 1)
    decreases n
  {
    if n > 0 {
      Ones(n - 1, more, 2 * sofar + 1);
      assert (Pow2(n) - 1) / 2 == Pow2(n - 1) - 1 && (Pow2(n) - 1) % 2 == 1;
      TwiceProduct(Pow2(n - 1), sofar);
      assert Pow2(n - 1) * (2 * sofar + 1) == 2 * (Pow2(n - 1) * sofar) + Pow2(n - 1);
    } else {
      assert Pow2(0) * sofar == sofar;
    }
  }

  /** The codes of the literals: as many ones as the literal, and a zero. */
  lemma LiteralCode(b: nat)
    requires b < 14
    ensures IsCode(Lengths(258), b, Gathered(Pow2(b) - 1, b + 1, 0), b + 1)
  {
    hide CountUpTo, First, Gathered, Lengths;
    LengthFirsts(b + 1);
    LengthCounts(b, b + 1);
    Ones(b, 1, 0);
    LengthIs(b);
    ZeroBit(Pow2(b) - 1);
  }

  lemma OnesOf15(ones: nat)
    requires 14 <= ones <= 15
    ensures Pow2(ones) <= Pow2(15) && Gathered(Pow2(ones) - 1, 15, 0) == Pow2(15) - (if ones == 14 then 2 else 1)
  {
    Powers();
    hide Pow2;
    if ones == 14 {
      Ones(14, 1, 0);
    } else {
      Ones(15, 0, 0);
    }
  }

  /** The two longest codes: the end of the block and the shortest match. */
  lemma LongCode(symbol: nat, ones: nat)
    requires 256 <= symbol < 258 && ones == symbol - 242
    ensures IsCode(Lengths(258), symbol, Gathered(Pow2(ones) - 1, 15, 0), 15)
  {
    hide CountUpTo, First, Gathered, Pow2, Lengths;
    LengthFirsts(15);
    LengthCounts(symbol, 15);
    OnesOf15(ones);
    LengthIs(symbol);
  }

  function Twos(): (lengths: seq<Byte>)
    ensures |lengths| == 4 && Lengths(262)[258..262] == lengths
  {
    [2, 2, 2, 2]
  }

  lemma TwosCode()
    ensures IsCode(Twos(), 3, Gathered(3, 2, 0), 2)
  {
    assert CountUpTo(Twos(), 3, 2) == 3 && CountUpTo(Twos(), 4, 1) == 0;
    assert Gathered(1, 1, 1) == 3;
    SmallPowers();
  }

  lemma KnownLiteralAt(b: nat, a: nat, n: nat, y: nat, m: nat, out: seq<Byte>)
    requires b < 14 && n == b + 1 && a == Pow2(b) - 1 && a < Pow2(n)
    ensures Compressed(Lengths(258), Twos(), LsbBits(Then(a, n, y), n + m), out)
         == Compressed(Lengths(258), Twos(), LsbBits(y, m), out + [b])
  {
    hide *;
    LiteralCode(b);
    LiteralAt(Lengths(258), Twos(), b, a, n, y, m, out);
  }

  lemma KnownEndAt(y: nat, m: nat, out: seq<Byte>)
    ensures Compressed(Lengths(258), Twos(), LsbBits(0x3fff + 0x8000 * y, 15 + m), out) == Done(out, LsbBits(y, m))
  {
    hide Compressed, LsbBits, IsCode, Gathered, Pow2, Lengths;
    Powers();
    LongCode(256, 14);
    EndAt(Lengths(258), Twos(), 0x3fff, 15, y, m, out);
  }

  lemma Powers()
    ensures Pow2(13) == 0x2000 && Pow2(14) == 0x4000 && Pow2(15) == 0x8000
  {
    Pow2Of8();
    assert Pow2(11) == 8 * Pow2(8) && Pow2(13) == 4 * Pow2(11);
  }

  lemma ShortestMatch(t: Token, out: seq<Byte>)
    requires |out| >= 4 && t.Match? && t.lengthCode == t.lengthExtra == t.distanceExtra == 0 && t.distanceCode == 3
    ensures LengthExtra(0) == 0 && DistanceExtra(3) == 0 && WellFormed(t)
    ensures Applies(out, t) && Apply(out, t) == Copied(out, 4, 3)
  {
    ShortTables();
    hide *;
    WithoutExtra(t);
    AppliesMatch(out, t);
  }

  lemma ShortTables()
    ensures LengthBase(0) == 3 && LengthExtra(0) == 0 && DistanceBase(3) == 4 && DistanceExtra(3) == 0
  {
  }

  lemma WithoutExtra(t: Token)
    requires t.Match? && t.lengthCode < 29 && t.distanceCode < 30 && t.lengthExtra == t.distanceExtra == 0
    ensures WellFormed(t)
  {
  }

  lemma ShortestThen(t: Token, y: nat)
    requires t.Match? && t.lengthCode == t.lengthExtra == t.distanceExtra == 0 && t.distanceCode == 3 && WellFormed(t)
    ensures MatchThen(t, 0x7fff, 15, 3, 2, y) == 0x7fff + 0x1_8000 + 0x2_0000 * y
  {
    ShortTables();
    SmallPowers();
    Powers();
    hide LengthExtra, DistanceExtra, Pow2, WellFormed;
    assert Then(0, 0, y) == y;
    assert Then(3, 2, y) == 3 + 4 * y;
  }

  /** The match of three bytes, four back. */
  lemma KnownMatchAt(y: nat, m: nat, out: seq<Byte>)
    requires |out| >= 4
    ensures Compressed(Lengths(258), Twos(), LsbBits(0x7fff + 0x1_8000 + 0x2_0000 * y, 17 + m), out)
         == Compressed(Lengths(258), Twos(), LsbBits(y, m), Copied(out, 4, 3))
  {
    SmallPowers();
    Powers();
    hide *;
    var t := Match(0, 0, 3, 0);
    ShortestMatch(t, out);
    ShortestThen(t, y);
    LongCode(257, 15);
    TwosCode();
    MatchAt(Lengths(258), Twos(), t, 0x7fff, 15, 3, 2, y, m, out);
  }

  lemma KnownCompressed()
    ensures Compressed(Lengths(258), Twos(), LsbBits(0x7fffffff69fff, 59), [])
         == Done([13, 0, 1, 2, 13, 0, 1], LsbBits(0, 7))
  {
    Powers();
    SmallPowers();
    KnownCopy();
    hide Compressed, LsbBits, Pow2, Lengths, Twos, Copied;
    KnownLiteralAt(13, 8191, 14, 0x1fffffffda, 45, []);
    KnownLiteralAt(0, 0, 1, 0xfffffffed, 44, [13]);
    KnownLiteralAt(1, 1, 2, 0x3fffffffb, 42, [13, 0]);
    KnownLiteralAt(2, 3, 3, 0x7fffffff, 39, [13, 0, 1]);
    assert [] + [13] == [13] && [13] + [0] == [13, 0] && [13, 0] + [1] == [13, 0, 1] && [13, 0, 1] + [2] == [13, 0, 1, 2];
    KnownMatchAt(0x3fff, 22, [13, 0, 1, 2]);
    KnownEndAt(0x0, 7, [13, 0, 1, 2, 13, 0, 1]);
  }

  lemma KnownCopy()
    ensures Copied([13, 0, 1, 2], 4, 3) == [13, 0, 1, 2, 13, 0, 1]
  {
    CopiedIsUnique([13, 0, 1, 2], 4, [13, 0, 1, 2, 13, 0, 1]);
  }

  /** The lengths of the code-length code as they are written. */
  function WidthsWritten(): seq<Byte> {
    [3, 4, 4, 4, 5, 4, 5, 4, 5, 4, 5, 4, 5, 4, 5, 4, 5, 4, 5]
  }

  lemma WidthsArePlaced(codes: seq<Byte>)
    requires codes == WidthsWritten()
    ensures |codes| == 19 && (forall i :: 0 <= i < 19 ==> codes[i] < 8) && Placed(codes, 19) == Widths()
  {
    hide Placed;
    forall s | 0 <= s < 19
      ensures Placed(codes, 19)[s] == Width(s)
    {
      PlacedAt(codes, 19, s);
      PlacesByRule(s);
      WrittenInPlace(codes, s);
    }
  }

  lemma WrittenInPlace(codes: seq<Byte>, s: nat)
    requires codes == WidthsWritten() && s < 19
    ensures PlaceOf(s) < 19 && codes[PlaceOf(s)] == Width(s)
  {
    PlacesByRule(s);
  }

  lemma WidthsNumber(codes: seq<Byte>)
    requires codes == WidthsWritten()
    ensures Octal(codes, 0, 0x3fffffffb4fff80bff4eb4b7febee7dae6391e6a2c)
         == 0x7fffffff69fff017fe9d696ffd7dcfb5cc723cd45965965965965923
  {
    assert Octal(codes, 16, 0x3fffffffb4fff80bff4eb4b7febee7dae6391e6a2c) == 0x7fffffff69fff017fe9d696ffd7dcfb5cc723cd45965;
    assert Octal(codes, 12, 0x3fffffffb4fff80bff4eb4b7febee7dae6391e6a2c) == 0x7fffffff69fff017fe9d696ffd7dcfb5cc723cd45965965;
    assert Octal(codes, 8, 0x3fffffffb4fff80bff4eb4b7febee7dae6391e6a2c) == 0x7fffffff69fff017fe9d696ffd7dcfb5cc723cd45965965965;
    assert Octal(codes, 4, 0x3fffffffb4fff80bff4eb4b7febee7dae6391e6a2c) == 0x7fffffff69fff017fe9d696ffd7dcfb5cc723cd45965965965965;
  }

  lemma RunsAreOver(s: seq<Bit>)
    ensures ReadRuns(Widths(), 262, Lengths(262), s) == Done(Lengths(262), s)
  {
  }

  lemma KnownHeader()
    ensures DynamicLengths(LsbBits(0x1fffffffda7ffc05ffa75a5bff5f73ed731c8f351659659659659648fc61, 245))
         == Done((Lengths(258), Twos()), LsbBits(0x7fffffff69fff, 59))
  {
    hide *;
    var codes := WidthsWritten();
    WidthsArePlaced(codes);
    WidthsNumber(codes);
    RunsA();
    RunsB();
    RunsC();
    RunsD();
    LengthsCut();
    RunsAreOver(LsbBits(0x7fffffff69fff, 59));
    HeaderAt(1, 3, codes, 0x3fffffffb4fff80bff4eb4b7febee7dae6391e6a2c, 174, Lengths(262), LsbBits(0x7fffffff69fff, 59));
  }

  lemma LengthsCut()
    ensures Lengths(0) == [] && Lengths(262)[..258] == Lengths(258) && Lengths(262)[258..262] == Twos()
  {
  }

  /** A stream of one dynamic block: the lengths of its codes are run-length coded
      with every one of the nineteen symbols and take every value there is. */
  function KnownBytes(): seq<Byte> {
    KnownStart() + KnownEnd()
  }

  function KnownStart(): seq<Byte> {
    [0x0d, 0xe3, 0x47, 0xb2, 0x2c, 0xcb, 0xb2, 0x2c, 0xcb, 0xb2, 0xa8, 0x79, 0xe4, 0x98, 0x6b, 0x9f]
  }

  function KnownEnd(): seq<Byte> {
    [0xfb, 0xfa, 0xdf, 0xd2, 0x3a, 0xfd, 0x2f, 0xe0, 0xff, 0xd3, 0xfe, 0xff, 0xff, 0xff, 0x00]
  }

  lemma StartNumber(b: seq<Byte>)
    requires b == KnownStart()
    ensures |b| == 16 && NumberFrom(b, 0, 0xfffffffed3ffe02ffd3ad2dffafb) == 0xfffffffed3ffe02ffd3ad2dffafb9f6b98e479a8b2cb2cb2cb2cb247e30d
  {
    assert NumberFrom(b, 12, 0xfffffffed3ffe02ffd3ad2dffafb) == 0xfffffffed3ffe02ffd3ad2dffafb9f6b98e4;
    assert NumberFrom(b, 8, 0xfffffffed3ffe02ffd3ad2dffafb) == 0xfffffffed3ffe02ffd3ad2dffafb9f6b98e479a8b2cb;
    assert NumberFrom(b, 4, 0xfffffffed3ffe02ffd3ad2dffafb) == 0xfffffffed3ffe02ffd3ad2dffafb9f6b98e479a8b2cb2cb2cb2c;
  }

  lemma EndNumber(b: seq<Byte>)
    requires b == KnownEnd()
    ensures |b| == 15 && NumberFrom(b, 0, 0) == 0xfffffffed3ffe02ffd3ad2dffafb
  {
    assert NumberFrom(b, 11, 0) == 0xffffff;
    assert NumberFrom(b, 7, 0) == 0xfffffffed3ffe0;
    assert NumberFrom(b, 4, 0) == 0xfffffffed3ffe02ffd3a;
  }

  lemma KnownBody(data: seq<Byte>)
    requires data == [13, 0, 1, 2, 13, 0, 1]
    ensures BlockBody(2, LsbBits(0x1fffffffda7ffc05ffa75a5bff5f73ed731c8f351659659659659648fc61, 245), [])
         == Done(data, LsbBits(0, 7))
  {
    hide DynamicLengths, Compressed, LsbBits, Lengths, Twos;
    KnownHeader();
    KnownCompressed();
  }

  lemma KnownInflates(bytes: seq<Byte>, data: seq<Byte>)
    requires bytes == KnownBytes() && data == [13, 0, 1, 2, 13, 0, 1]
    ensures Inflate(StreamBits(bytes)) == Ok(data)
  {
    assert bytes == KnownStart() + KnownEnd();
    hide *;
    StartNumber(KnownStart());
    EndNumber(KnownEnd());
    JoinedStream(KnownStart(), KnownEnd());
    KnownBody(data);
    LastBlock(2, 0x1fffffffda7ffc05ffa75a5bff5f73ed731c8f351659659659659648fc61, 245, data, LsbBits(0, 7));
  }

  /** That stream inflates to seven bytes: four literals and a match. */
  lemma DynamicInflates()
    ensures Inflate(StreamBits(KnownBytes())) == Ok([13, 0, 1, 2, 13, 0, 1])
  {
    KnownInflates(KnownBytes(), [13, 0, 1, 2, 13, 0, 1]);
  }
}
