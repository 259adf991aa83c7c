/** What RFC 1951 itself allows of a stream, against what the decoder accepts: the
    decoder's language is larger. */
module RfcFormat {
  import opened Bits
  import opened BitStreams
  import opened Huffman
  import opened DeflateFormat
  import opened InflateSpec
  import opened Wrappers
  import Deflater

  // ----- The tables of section 3.2.5 -----

  /** The last length in each row of the table, 258 being the last row's alone. */
  function LengthLast(code: nat): nat
    requires code < 29
  {
    [3, 4, 5, 6, 7, 8, 9, 10, 12, 14, 16, 18, 22, 26, 30, 34, 42, 50, 58, 66, 82, 98, 114, 130, 162,
     194, 226, 257, 258][code]
  }

  function DistanceLast(code: nat): nat
    requires code < 30
  {
    [1, 2, 3, 4, 6, 8, 12, 16, 24, 32, 48, 64, 96, 128, 192, 256, 384, 512, 768, 1024, 1536, 2048,
     3072, 4096, 6144, 8192, 12288, 16384, 24576, 32768][code]
  }

  /** A match's length and distance are in the rows of its codes. */
  predicate InTables(t: Token)
    requires WellFormed(t)
  {
    t.Match? ==> MatchLength(t) <= LengthLast(t.lengthCode) && MatchDistance(t) <= DistanceLast(t.distanceCode)
  }

  /** Code 284 with all its extra bits set, which would be a second way to write 258. */
  predicate IsSecondSpelling(t: Token) {
    t.Match? && t.lengthCode == 27 && t.lengthExtra == 31
  }

  lemma LengthRow(code: nat)
    requires code < 29
    ensures LengthBase(code) + Pow2(LengthExtra(code)) == LengthLast(code) + if code == 27 then 2 else 1
  {
    hide Pow2;
    SmallPowers();
  }

  lemma NextLengthRow(code: nat)
    requires code < 28
    ensures LengthLast(code) < LengthBase(code + 1)
  {
  }

  lemma LongestRows()
    ensures LengthBase(27) == 227 && LengthLast(27) == 257
  {
  }

  lemma DistanceRow(code: nat)
    requires code < 30
    ensures DistanceBase(code) + Pow2(DistanceExtra(code)) == DistanceLast(code) + 1
  {
    PowersToThirteen();
    hide Pow2;
    if code < 15 {
    } else {
    }
  }

  lemma PowersToThirteen()
    ensures Pow2(0) == 1 && Pow2(1) == 2 && Pow2(2) == 4 && Pow2(3) == 8 && Pow2(4) == 16 && Pow2(5) == 32
    ensures Pow2(6) == 64 && Pow2(7) == 128 && Pow2(8) == 256 && Pow2(9) == 512 && Pow2(10) == 1024
    ensures Pow2(11) == 2048 && Pow2(12) == 4096 && Pow2(13) == 8192
  {
    SmallPowers();
  }

  lemma NextDistanceRow(code: nat)
    requires code < 29
    ensures DistanceLast(code) < DistanceBase(code + 1)
  {
  }

  /** Extra bits take a match out of its rows in one case only. */
  lemma OneTokenIsOutside(t: Token)
    requires WellFormed(t)
    ensures InTables(t) <==> !IsSecondSpelling(t)
  {
    hide LengthBase, LengthExtra, LengthLast, DistanceBase, DistanceExtra, DistanceLast, Pow2;
    if t.Match? {
      LengthRow(t.lengthCode);
      DistanceRow(t.distanceCode);
      LongestRows();
    }
  }

  lemma {:induction false} LengthRowsGrow(a: nat, b: nat)
    requires a < b < 29
    ensures LengthLast(a) < LengthBase(b)
  {
    hide LengthBase, LengthExtra, LengthLast, Pow2;
    NextLengthRow(b - 1);
    if a < b - 1 {
      LengthRowsGrow(a, b - 1);
      RowIsNotEmpty(b - 1);
    }
  }

  lemma {:induction false} DistanceRowsGrow(a: nat, b: nat)
    requires a < b < 30
    ensures DistanceLast(a) < DistanceBase(b)
  {
    hide DistanceBase, DistanceExtra, DistanceLast, Pow2;
    NextDistanceRow(b - 1);
    if a < b - 1 {
      DistanceRowsGrow(a, b - 1);
      RowIsNotEmpty(b - 1);
    }
  }

  lemma RowIsNotEmpty(code: nat)
    ensures code < 29 ==> LengthBase(code) <= LengthLast(code)
    ensures code < 30 ==> DistanceBase(code) <= DistanceLast(code)
  {
    if code < 29 {
      LengthRow(code);
    }
    if code < 30 {
      DistanceRow(code);
    }
  }

  /** By the tables every match has one spelling. */
  lemma OneSpelling(t: Token, u: Token)
    requires t.Match? && u.Match? && WellFormed(t) && WellFormed(u) && InTables(t) && InTables(u)
    requires MatchLength(t) == MatchLength(u) && MatchDistance(t) == MatchDistance(u)
    ensures t == u
  {
    hide LengthBase, LengthExtra, LengthLast, DistanceBase, DistanceExtra, DistanceLast, Pow2;
    if t.lengthCode < u.lengthCode {
      LengthRowsGrow(t.lengthCode, u.lengthCode);
    } else if u.lengthCode < t.lengthCode {
      LengthRowsGrow(u.lengthCode, t.lengthCode);
    }
    if t.distanceCode < u.distanceCode {
      DistanceRowsGrow(t.distanceCode, u.distanceCode);
    } else if u.distanceCode < t.distanceCode {
      DistanceRowsGrow(u.distanceCode, t.distanceCode);
    }
  }

  // ----- The trees of section 3.2.1 -----

  /** The codes take every word there is: in the tree every node that is not a leaf has
      both its edges, and every leaf its symbol. */
  predicate IsFullTree(lengths: seq<nat>) {
    KraftUpTo(lengths, |lengths|) == Pow2(MAX_LENGTH)
  }

  /** Walked down by any bits, a full tree always comes to a symbol; and among the codes
      that fit at all only a full one does. */
  lemma FullTreesAlwaysDecode(lengths: seq<nat>)
    requires Kraft(lengths)
    ensures IsFullTree(lengths) <==> forall s: seq<Bit> :: |s| >= MAX_LENGTH ==> Decode(lengths, s).Done?
  {
    hide KraftUpTo, Pow2, CountUpTo;
    if IsFullTree(lengths) {
      forall s: seq<Bit> | |s| >= MAX_LENGTH ensures Decode(lengths, s).Done? {
        CompleteCodesAlwaysDecode(lengths, s, 1);
      }
    }
    if forall s: seq<Bit> :: |s| >= MAX_LENGTH ==> Decode(lengths, s).Done? {
      assert Decode(lengths, Ones(MAX_LENGTH)).Done?;
      OnesDecode(lengths, 1);
    }
  }

  function Ones(n: nat): (s: seq<Bit>)
    ensures |s| == n
  {
    seq(n, _ => 1)
  }

  lemma {:induction false} OnesValue(n: nat)
    ensures MsbValue(Ones(n)) == Pow2(n) - 1
  {
    if n > 0 {
      OnesValue(n - 1);
      assert Ones(n)[..n - 1] == Ones(n - 1);
      assert Ones(n)[..n] == Ones(n);
      MsbValueNext(Ones(n), n - 1);
      assert Ones(n)[..n] == Ones(n);
    }
  }

  lemma TwiceUsed(lengths: seq<nat>, m: nat)
    requires m > 0
    ensures Used(lengths, |lengths|, m) >= 2 * Used(lengths, |lengths|, m - 1)
  {
    hide CountUpTo;
  }

  lemma {:induction false} UsedGrows(lengths: seq<nat>, l: nat, m: nat)
    requires l <= m
    ensures Used(lengths, |lengths|, m) >= Used(lengths, |lengths|, l) * Pow2(m - l)
  {
    hide CountUpTo;
    if l < m {
      UsedGrows(lengths, l, m - 1);
      TwiceUsed(lengths, m);
      assert Pow2(m - l) == 2 * Pow2(m - 1 - l);
      hide Used, Pow2;
      TwiceProduct(Pow2(m - 1 - l), Used(lengths, |lengths|, l));
    } else {
      assert Pow2(0) == 1;
    }
  }

  lemma {:induction false} OnesDecode(lengths: seq<nat>, l: nat)
    requires 1 <= l <= MAX_LENGTH && Unmatched(lengths, Ones(MAX_LENGTH), l)
    requires DecodeFrom(lengths, Ones(MAX_LENGTH), l).Done? && Kraft(lengths)
    ensures IsFullTree(lengths)
    decreases MAX_LENGTH - l
  {
    hide KraftUpTo, Pow2, CountUpTo, Used, MsbValue;
    var s := Ones(MAX_LENGTH);
    assert s[..l] == Ones(l);
    OnesValue(l);
    UsedIsNextCode(lengths, l);
    if MsbValue(s[..l]) < First(lengths, l) + Count(lengths, l) {
      UsedGrows(lengths, l, MAX_LENGTH);
      UsedIsKraft(lengths, |lengths|);
      Pow2Add(l, MAX_LENGTH - l);
      AtLeastAll(Used(lengths, |lengths|, l), Pow2(l), Pow2(MAX_LENGTH - l));
    } else {
      MsbValueNext(s, l - 1);
      OnesDecode(lengths, l + 1);
    }
  }

  lemma AtLeastAll(used: nat, words: nat, each: nat)
    requires used >= words
    ensures used * each >= words * each
  {
  }

  predicate NoneCoded(lengths: seq<nat>) {
    forall i: nat :: i < |lengths| ==> !Coded(lengths, i)
  }

  /** One code, of one bit. */
  ghost predicate OneBit(lengths: seq<nat>, symbol: nat) {
    Coded(lengths, symbol) && lengths[symbol] == 1 && forall i: nat :: Coded(lengths, i) ==> i == symbol
  }

  /** A full tree; or, by the last paragraph of section 3.2.7, one code of one bit with
      the other unused, or no code at all. */
  ghost predicate IsDistanceTree(lengths: seq<nat>) {
    IsFullTree(lengths) || NoneCoded(lengths) || exists symbol :: OneBit(lengths, symbol)
  }

  // ----- Section 3.2.7, as the standard states it -----

  /** The runs, one after another, spell exactly these lengths. */
  ghost predicate RunsSpell(code: seq<nat>, sofar: seq<Byte>, runs: seq<Run>, lengths: seq<Byte>)
    decreases |runs|
  {
    if runs == [] then sofar == lengths
    else
      && RunEncodable(code, runs[0]) && RunApplies(sofar, runs[0])
      && RunsSpell(code, ApplyRun(sofar, runs[0]), runs[1..], lengths)
  }

  /** 257 to 286 literal and length codes, 1 to 32 distance codes, 4 to 19 code-length
      codes; runs that spell out exactly those lengths; lists that are trees; and a
      code for the end of the block. */
  ghost predicate IsRfcHeader(h: Header) {
    && h.moreLiterals <= 29 && h.moreDistances <= 31
    && |h.lengths| == h.moreLiterals + 257 + h.moreDistances + 1
    && AreRfcLists(h.lengths[..h.moreLiterals + 257], h.lengths[h.moreLiterals + 257..])
    && 4 <= |h.codes| <= 19 && (forall i :: 0 <= i < |h.codes| ==> h.codes[i] < 8)
    && Spells(Placed(h.codes, |h.codes|), h)
  }

  ghost predicate AreRfcLists(literals: seq<Byte>, distances: seq<Byte>) {
    IsFullTree(literals) && IsDistanceTree(distances) && HasCode(literals, END_OF_BLOCK)
  }

  ghost predicate Spells(code: seq<Byte>, h: Header) {
    IsFullTree(code) && RunsSpell(code, [], h.runs, h.lengths)
  }

  ghost predicate AllInTables(ts: seq<Token>) {
    forall i :: 0 <= i < |ts| ==> WellFormed(ts[i]) && InTables(ts[i])
  }

  ghost predicate IsRfcBlock(b: Block, at: nat) {
    match b
    case Stored(padding, data) => |padding| < 8 && (at + 3 + |padding|) % 8 == 0 && |data| < 0x1_0000
    case Fixed(ts) => CompressedValid(FixedLiterals(), FixedDistances(), ts) && AllInTables(ts)
    case Dynamic(h, ts) =>
      && IsRfcHeader(h) && AllInTables(ts)
      && AllEncodable(h.lengths[..h.moreLiterals + 257], h.lengths[h.moreLiterals + 257..], ts)
  }

  lemma {:induction false} SpellingReaches(code: seq<nat>, total: nat, sofar: seq<Byte>, runs: seq<Run>, lengths: seq<Byte>)
    requires RunsSpell(code, sofar, runs, lengths)
    ensures |lengths| >= |sofar|
    ensures |lengths| == total ==> RunsReach(code, total, sofar, runs, lengths)
    decreases |runs|
  {
    if runs != [] {
      SpellingReaches(code, total, ApplyRun(sofar, runs[0]), runs[1..], lengths);
    }
  }

  lemma {:induction false} ReachingSpells(code: seq<nat>, total: nat, sofar: seq<Byte>, runs: seq<Run>, lengths: seq<Byte>)
    requires RunsReach(code, total, sofar, runs, lengths)
    ensures RunsSpell(code, sofar, runs, lengths)
    decreases |runs|
  {
    if |sofar| < total {
      ReachingSpells(code, total, ApplyRun(sofar, runs[0]), runs[1..], lengths);
    }
  }

  /** What a reader of a header could check and the decoder does not: the count of literal
      codes, where the runs end, and each of the three lists. */
  ghost function Checks(h: Header): (checks: seq<bool>)
    requires h.Valid()
    ensures |checks| == 5
  {
    [h.moreLiterals <= 29, |h.lengths| == h.Total(), IsFullTree(Placed(h.codes, |h.codes|)), IsFullTree(h.Literals()),
     IsDistanceTree(h.Distances())]
  }

  ghost predicate MeetsChecks(h: Header)
    requires h.Valid()
  {
    Checks(h) == [true, true, true, true, true]
  }

  /** No match is written the second way. */
  predicate OneWay(ts: seq<Token>) {
    forall i :: 0 <= i < |ts| ==> !IsSecondSpelling(ts[i])
  }

  ghost predicate BlockMeetsChecks(b: Block) {
    match b
    case Stored(_, _) => true
    case Fixed(ts) => OneWay(ts)
    case Dynamic(h, ts) => h.Valid() && MeetsChecks(h) && OneWay(ts)
  }

  lemma OneWayIsInTables(literals: seq<nat>, distances: seq<nat>, ts: seq<Token>)
    requires AllEncodable(literals, distances, ts)
    ensures AllInTables(ts) <==> OneWay(ts)
  {
    hide InTables, HasCode, IsSecondSpelling;
    forall i | 0 <= i < |ts| ensures WellFormed(ts[i]) && (InTables(ts[i]) <==> !IsSecondSpelling(ts[i])) {
      assert Encodable(literals, distances, ts[i]);
      OneTokenIsOutside(ts[i]);
    }
  }

  /** Every header the standard allows is one the decoder reads, and one that is read,
      with a code for the end of the block, is one the standard allows exactly when
      it passes the checks the decoder leaves out. */
  lemma RfcHeadersExactly(h: Header)
    ensures IsRfcHeader(h) <==> h.Valid() && HasCode(h.Literals(), END_OF_BLOCK) && MeetsChecks(h)
  {
    hide IsFullTree, IsDistanceTree, HasCode, Placed;
    if IsRfcHeader(h) {
      SpellingReaches(Placed(h.codes, |h.codes|), h.Total(), [], h.runs, h.lengths);
      assert h.lengths[h.moreLiterals + 257..] == h.lengths[h.moreLiterals + 257..h.Total()];
    }
    if h.Valid() && HasCode(h.Literals(), END_OF_BLOCK) && MeetsChecks(h) {
      ReachingSpells(Placed(h.codes, |h.codes|), h.Total(), [], h.runs, h.lengths);
      assert h.lengths[h.moreLiterals + 257..] == h.lengths[h.moreLiterals + 257..h.Total()];
    }
  }

  /** So of blocks, wherever they stand, their tokens included. */
  lemma RfcBlocksExactly(b: Block, at: nat)
    ensures IsRfcBlock(b, at) <==> BlockValid(b, at) && BlockMeetsChecks(b)
  {
    hide HasCode, IsRfcHeader, AllEncodable, AllInTables, OneWay, MeetsChecks;
    match b
    case Stored(_, _) =>
    case Fixed(ts) =>
      if BlockValid(b, at) {
        OneWayIsInTables(FixedLiterals(), FixedDistances(), ts);
      }
    case Dynamic(h, ts) =>
      RfcHeadersExactly(h);
      if IsRfcHeader(h) {
        RfcLists(h);
        if AllEncodable(h.Literals(), h.Distances(), ts) {
          OneWayIsInTables(h.Literals(), h.Distances(), ts);
        }
      }
  }

  lemma RfcLists(h: Header)
    requires IsRfcHeader(h) && h.Valid()
    ensures h.moreLiterals + 257 <= |h.lengths|
    ensures h.lengths[..h.moreLiterals + 257] == h.Literals() && h.lengths[h.moreLiterals + 257..] == h.Distances()
  {
    hide IsFullTree, IsDistanceTree, HasCode, Placed, RunsSpell, RunsReach;
    assert h.lengths[h.moreLiterals + 257..] == h.lengths[h.moreLiterals + 257..h.Total()];
  }

  // ----- The grammar is unambiguous -----

  lemma SameValue(v: nat, w: nat, n: nat, r: seq<Bit>, t: seq<Bit>)
    requires v < Pow2(n) && w < Pow2(n) && LsbBits(v, n) + r == LsbBits(w, n) + t
    ensures v == w && r == t
  {
    hide LsbBits, Take, Pow2;
    TakeExact(LsbBits(v, n) + r, n, v, r);
    TakeExact(LsbBits(v, n) + r, n, w, t);
  }

  lemma {:induction false} SameRuns(
    code: seq<nat>, total: nat, sofar: seq<Byte>, one: seq<Run>, other: seq<Run>, m: seq<Byte>, n: seq<Byte>,
    r: seq<Bit>, t: seq<Bit>)
    requires |code| == 19 && RunsReach(code, total, sofar, one, m) && RunsReach(code, total, sofar, other, n)
    requires forall i :: 0 <= i < |one| ==> RunEncodable(code, one[i])
    requires forall i :: 0 <= i < |other| ==> RunEncodable(code, other[i])
    requires RunsBits(code, one) + r == RunsBits(code, other) + t
    ensures one == other && m == n && r == t
    decreases |one|
  {
    hide RunBits, RunEncodable, ParseRun, ApplyRun, RunApplies;
    if |sofar| >= total {
      assert [] + r == r && [] + t == t;
    } else {
      var a, b := RunsBits(code, one[1..]) + r, RunsBits(code, other[1..]) + t;
      Regroup2(RunBits(code, one[0]), RunsBits(code, one[1..]), r);
      Regroup2(RunBits(code, other[0]), RunsBits(code, other[1..]), t);
      RepeatsSomething(sofar, one[0]);
      RepeatsSomething(sofar, other[0]);
      ParseRunComplete(code, one[0], sofar == [], a);
      ParseRunComplete(code, other[0], sofar == [], b);
      SameRuns(code, total, ApplyRun(sofar, one[0]), one[1..], other[1..], m, n, r, t);
      assert one == [one[0]] + one[1..] && other == [other[0]] + other[1..];
    }
  }

  lemma RepeatsSomething(sofar: seq<Byte>, run: Run)
    requires RunApplies(sofar, run)
    ensures run.Again? ==> sofar != []
  {
  }

  lemma SameHeader(g: Header, h: Header, r: seq<Bit>, t: seq<Bit>)
    requires g.Valid() && h.Valid() && g.Bits() + r == h.Bits() + t
    ensures g == h && r == t
  {
    hide LsbBits, ThreeBits, RunsBits, RunsReach, Placed, Pow2, TakeThrees;
    var x, y := Placed(g.codes, |g.codes|), Placed(h.codes, |h.codes|);
    RunsReachEncodable(x, g.Total(), [], g.runs, g.lengths);
    RunsReachEncodable(y, h.Total(), [], h.runs, h.lengths);
    SmallPowers();
    var a, b := ThreeBits(g.codes) + (RunsBits(x, g.runs) + r), ThreeBits(h.codes) + (RunsBits(y, h.runs) + t);
    Regroup5(LsbBits(g.moreLiterals, 5), LsbBits(g.moreDistances, 5), LsbBits(|g.codes| - 4, 4),
             ThreeBits(g.codes), RunsBits(x, g.runs), r);
    Regroup5(LsbBits(h.moreLiterals, 5), LsbBits(h.moreDistances, 5), LsbBits(|h.codes| - 4, 4),
             ThreeBits(h.codes), RunsBits(y, h.runs), t);
    SameValue(g.moreLiterals, h.moreLiterals, 5, LsbBits(g.moreDistances, 5) + (LsbBits(|g.codes| - 4, 4) + a),
              LsbBits(h.moreDistances, 5) + (LsbBits(|h.codes| - 4, 4) + b));
    SameValue(g.moreDistances, h.moreDistances, 5, LsbBits(|g.codes| - 4, 4) + a, LsbBits(|h.codes| - 4, 4) + b);
    SameValue(|g.codes| - 4, |h.codes| - 4, 4, a, b);
    TakeThreesComplete(g.codes, RunsBits(x, g.runs) + r);
    TakeThreesComplete(h.codes, RunsBits(y, h.runs) + t);
    SameRuns(x, g.Total(), [], g.runs, h.runs, g.lengths, h.lengths, r, t);
  }

  lemma {:induction false} SameTokens(
    literals: seq<nat>, distances: seq<nat>, one: seq<Token>, other: seq<Token>, r: seq<Bit>, t: seq<Bit>)
    requires CompressedValid(literals, distances, one) && CompressedValid(literals, distances, other)
    requires CompressedBits(literals, distances, one) + r == CompressedBits(literals, distances, other) + t
    ensures one == other && r == t
    decreases |one|
  {
    hide ParseItem, HasCode, CodeBits, Encodable, TokenBits;
    var a := FirstItem(literals, distances, one, r);
    var b := FirstItem(literals, distances, other, t);
    if one != [] && other != [] {
      SameTokens(literals, distances, one[1..], other[1..], r, t);
      assert one == [one[0]] + one[1..] && other == [other[0]] + other[1..];
    }
  }

  /** What is read first of compressed data is its first token, or its end. */
  lemma FirstItem(literals: seq<nat>, distances: seq<nat>, ts: seq<Token>, r: seq<Bit>) returns (rest: seq<Bit>)
    requires CompressedValid(literals, distances, ts)
    ensures ts != [] ==> CompressedValid(literals, distances, ts[1..])
    ensures ts != [] ==> rest == CompressedBits(literals, distances, ts[1..]) + r
    ensures ts == [] ==> rest == r
    ensures ParseItem(literals, distances, CompressedBits(literals, distances, ts) + r)
         == Done(if ts == [] then End else Data(ts[0]), rest)
  {
    hide ParseItem, HasCode, CodeBits, Encodable, TokenBits;
    if ts == [] {
      rest := r;
      assert CompressedBits(literals, distances, ts) == ItemBits(literals, distances, End);
      ParseItemComplete(literals, distances, End, r);
    } else {
      rest := CompressedBits(literals, distances, ts[1..]) + r;
      assert CompressedBits(literals, distances, ts) + r == ItemBits(literals, distances, Data(ts[0])) + rest;
      ParseItemComplete(literals, distances, Data(ts[0]), rest);
    }
  }

  lemma SameStored(a: Block, b: Block, at: nat, r: seq<Bit>, t: seq<Bit>)
    requires a.Stored? && b.Stored? && BlockValid(a, at) && BlockValid(b, at)
    requires BodyBits(a, at) + r == BodyBits(b, at) + t
    ensures a == b && r == t
  {
    hide LsbBits, StreamBits, Pow2, TakeBytes;
    assert |a.padding| == |b.padding|;
    var x, y := LsbBits(0xffff - |a.data|, 16) + (StreamBits(a.data) + r), LsbBits(0xffff - |b.data|, 16) + (StreamBits(b.data) + t);
    Regroup4(a.padding, LsbBits(|a.data|, 16), LsbBits(0xffff - |a.data|, 16), StreamBits(a.data), r);
    Regroup4(b.padding, LsbBits(|b.data|, 16), LsbBits(0xffff - |b.data|, 16), StreamBits(b.data), t);
    SameFront(a.padding, b.padding, LsbBits(|a.data|, 16) + x, LsbBits(|b.data|, 16) + y);
    Pow2Of16();
    SameValue(|a.data|, |b.data|, 16, x, y);
    SameValue(0xffff - |a.data|, 0xffff - |b.data|, 16, StreamBits(a.data) + r, StreamBits(b.data) + t);
    TakeBytesComplete(a.data, [], r);
    TakeBytesComplete(b.data, [], t);
    assert [] + a.data == a.data && [] + b.data == b.data;
  }

  lemma SameFront(a: seq<Bit>, b: seq<Bit>, r: seq<Bit>, t: seq<Bit>)
    requires |a| == |b| && a + r == b + t
    ensures a == b && r == t
  {
    assert a == (a + r)[..|a|] && b == (b + t)[..|b|];
    assert r == (a + r)[|a|..] && t == (b + t)[|b|..];
  }

  lemma SameBlock(a: Block, b: Block, at: nat, r: seq<Bit>, t: seq<Bit>)
    requires BlockValid(a, at) && BlockValid(b, at) && TypeOf(a) == TypeOf(b)
    requires BodyBits(a, at) + r == BodyBits(b, at) + t
    ensures a == b && r == t
  {
    hide CompressedBits, CompressedValid, LsbBits, StreamBits, Pow2;
    if a.Stored? {
      SameStored(a, b, at, r, t);
    } else if a.Fixed? {
      SameTokens(FixedLiterals(), FixedDistances(), a.tokens, b.tokens, r, t);
    } else {
      var g, h := a.header, b.header;
      var x, y := CompressedBits(g.Literals(), g.Distances(), a.tokens), CompressedBits(h.Literals(), h.Distances(), b.tokens);
      Regroup2(g.Bits(), x, r);
      Regroup2(h.Bits(), y, t);
      SameHeader(g, h, x + r, y + t);
      SameTokens(g.Literals(), g.Distances(), a.tokens, b.tokens, r, t);
    }
  }

  /** No bits stand for two different sequences of blocks. */
  lemma {:induction false} StreamsAreUnambiguous(one: seq<Block>, other: seq<Block>, at: nat, r: seq<Bit>, t: seq<Bit>)
    requires StreamValid(one, at) && StreamValid(other, at)
    requires BlocksBits(one, at) + r == BlocksBits(other, at) + t
    ensures one == other && r == t
    decreases |one|
  {
    hide BodyBits, BlockValid, LsbBits, Pow2;
    var a, b := one[0], other[0];
    var m, n := if |one| == 1 then 1 else 0, if |other| == 1 then 1 else 0;
    var x, y := AfterFirst(one, at, r), AfterFirst(other, at, t);
    Regroup3(LsbBits(m, 1), LsbBits(TypeOf(a), 2), BodyBits(a, at), x);
    Regroup3(LsbBits(n, 1), LsbBits(TypeOf(b), 2), BodyBits(b, at), y);
    SmallPowers();
    SameValue(m, n, 1, LsbBits(TypeOf(a), 2) + (BodyBits(a, at) + x), LsbBits(TypeOf(b), 2) + (BodyBits(b, at) + y));
    SameValue(TypeOf(a), TypeOf(b), 2, BodyBits(a, at) + x, BodyBits(b, at) + y);
    SameBlock(a, b, at, x, y);
    if |one| > 1 {
      StreamsAreUnambiguous(one[1..], other[1..], After(a, at), r, t);
    }
    assert one == [a] + one[1..] && other == [b] + other[1..];
  }

  // ----- Streams -----

  /** A stream of blocks the standard allows. */
  ghost predicate IsRfcStream(blocks: seq<Block>, at: nat)
    decreases |blocks|
  {
    && blocks != [] && IsRfcBlock(blocks[0], at) && BlockValid(blocks[0], at)
    && (|blocks| > 1 ==> IsRfcStream(blocks[1..], After(blocks[0], at)))
  }

  /** The blocks are a stream the standard allows, they stand for `data`, and `s` is their
      bits and then `rest`. */
  ghost predicate IsRfcDeflateOf(blocks: seq<Block>, s: seq<Bit>, data: seq<Byte>, rest: seq<Bit>) {
    IsRfcStream(blocks, 0) && IsDeflateOf(blocks, s, data, rest)
  }

  ghost predicate AllMeetChecks(blocks: seq<Block>) {
    forall i :: 0 <= i < |blocks| ==> BlockMeetsChecks(blocks[i])
  }

  lemma {:induction false} RfcStreamsExactly(blocks: seq<Block>, at: nat)
    ensures IsRfcStream(blocks, at) <==> StreamValid(blocks, at) && AllMeetChecks(blocks)
    decreases |blocks|
  {
    hide IsRfcBlock, BlockValid, BlockMeetsChecks, After;
    if blocks != [] {
      RfcBlocksExactly(blocks[0], at);
      if |blocks| > 1 && BlockValid(blocks[0], at) {
        RfcStreamsExactly(blocks[1..], After(blocks[0], at));
        assert forall i :: 0 < i < |blocks| ==> blocks[i] == blocks[1..][i - 1];
        assert forall i :: 0 <= i < |blocks[1..]| ==> blocks[1..][i] == blocks[i + 1];
      }
    }
  }

  /** Every stream the standard allows inflates to its data. */
  lemma RfcStreamsInflate(blocks: seq<Block>, s: seq<Bit>, data: seq<Byte>, rest: seq<Bit>)
    requires |s| % 8 == 0 && IsRfcDeflateOf(blocks, s, data, rest)
    ensures Inflate(s) == Ok(data)
  {
    hide IsDeflateOf, Inflate;
    InflateIsTheFormat(s, data);
  }

  /** An accepted stream is one the standard allows exactly when every dynamic header it was
      read as passes the checks the decoder leaves out, and no match of any block is
      written the second way; and it was read as one sequence of blocks and no other. */
  lemma AcceptedIsRfcExactly(s: seq<Bit>, data: seq<Byte>)
    requires |s| % 8 == 0 && Inflate(s) == Ok(data)
    ensures exists blocks, rest :: IsDeflateOf(blocks, s, data, rest)
    ensures forall blocks, rest :: IsDeflateOf(blocks, s, data, rest) ==>
              (AllMeetChecks(blocks) <==> exists others, after :: IsRfcDeflateOf(others, s, data, after))
  {
    hide Inflate, StreamValid, BlocksBits, StreamFollows, StreamOutput, IsRfcStream, AllMeetChecks;
    InflateIsTheFormat(s, data);
    forall blocks, rest | IsDeflateOf(blocks, s, data, rest)
      ensures AllMeetChecks(blocks) <==> exists others, after :: IsRfcDeflateOf(others, s, data, after)
    {
      RfcStreamsExactly(blocks, 0);
      if AllMeetChecks(blocks) {
        assert IsRfcDeflateOf(blocks, s, data, rest);
      }
      if others, after :| IsRfcDeflateOf(others, s, data, after) {
        RfcStreamsExactly(others, 0);
        StreamsAreUnambiguous(blocks, others, 0, rest, after);
      }
    }
  }

  // ----- Accepted streams the standard does not allow -----

  /** Accepted all the same, though no blocks the standard allows stand for its bits. */
  ghost predicate IsAcceptedAnyway(s: seq<Bit>, data: seq<Byte>) {
    |s| % 8 == 0 && Inflate(s) == Ok(data) && !exists others, rest :: IsRfcDeflateOf(others, s, data, rest)
  }

  /** Whatever check fails, the stream is accepted. */
  lemma AcceptedAnyway(blocks: seq<Block>, s: seq<Bit>, data: seq<Byte>, rest: seq<Bit>)
    requires |s| % 8 == 0 && IsDeflateOf(blocks, s, data, rest) && !AllMeetChecks(blocks)
    ensures IsAcceptedAnyway(s, data)
  {
    hide Inflate, IsDeflateOf, IsRfcDeflateOf, AllMeetChecks;
    InflateIsTheFormat(s, data);
    AcceptedIsRfcExactly(s, data);
  }

  /** One block, padded to whole bytes. */
  lemma OneBlock(b: Block) returns (s: seq<Bit>, padding: seq<Bit>)
    requires BlockValid(b, 0) && BlockFollows([], b)
    ensures |s| % 8 == 0 && IsDeflateOf([b], s, BlockOutput([], b), padding)
  {
    hide BlockValid, BlockBits, BlockFollows, BlockOutput;
    assert [b][1..] == [];
    var bits := BlocksBits([b], 0);
    padding := seq((8 - |bits| % 8) % 8, _ => 0);
    s := bits + padding;
    assert StreamFollows(BlockOutput([], b), [b][1..]) && StreamOutput(BlockOutput([], b), [b][1..]) == BlockOutput([], b);
  }

  /** A literal and a match of 258 bytes written with code 284. */
  function TwoTokens(l: Byte): seq<Token> {
    [Literal(l), Match(27, 31, 0, 0)]
  }

  lemma TwoTokensEncodable(l: Byte)
    ensures CompressedValid(FixedLiterals(), FixedDistances(), TwoTokens(l))
  {
    hide HasCode, FixedLiterals, FixedDistances, MatchLength, MatchDistance, LengthBase, LengthExtra, Pow2;
    Deflater.FixedCodeIsCanonical(l);
    Deflater.FixedCodeIsCanonical(284);
    Deflater.FixedCodeIsCanonical(END_OF_BLOCK);
    Deflater.DistanceCodeIsCanonical(0);
    TheSecondSpelling();
  }

  lemma TwoTokensFollow(l: Byte)
    ensures Follow([], TwoTokens(l)) && Output([], TwoTokens(l)) == Repeated(l, 259)
  {
    hide Copied, WellFormed, MatchLength, MatchDistance;
    TheSecondSpelling();
    var t := Match(27, 31, 0, 0);
    AppliesLiteral([], l);
    assert [] + [l] == [l];
    AppliesMatch([l], t);
    CopiedIsUnique([l], 1, Repeated(l, 259));
    assert TwoTokens(l)[1..] == [t] && [t][1..] == [];
    hide Apply, Applies;
    assert Follow(Repeated(l, 259), []);
    assert Follow([l], [t]);
    assert Output(Repeated(l, 259), []) == Repeated(l, 259);
    assert Output([l], [t]) == Repeated(l, 259);
  }

  lemma TheSecondSpelling()
    ensures WellFormed(Match(27, 31, 0, 0)) && MatchLength(Match(27, 31, 0, 0)) == 258
    ensures MatchDistance(Match(27, 31, 0, 0)) == 1
  {
    SmallPowers();
  }

  /** A fixed block in which 258 is written with code 284: no dynamic header, and accepted
      against the table. */
  lemma SecondSpellingIsAccepted(l: Byte) returns (s: seq<Bit>)
    ensures IsAcceptedAnyway(s, Repeated(l, 259))
    ensures exists rest :: IsDeflateOf([Fixed(TwoTokens(l))], s, Repeated(l, 259), rest)
  {
    hide CompressedValid, Follow, Output, Inflate, IsDeflateOf, IsRfcDeflateOf;
    var b := Fixed(TwoTokens(l));
    TwoTokensEncodable(l);
    TwoTokensFollow(l);
    var padding;
    s, padding := OneBlock(b);
    assert IsSecondSpelling(b.tokens[1]);
    assert !BlockMeetsChecks([b][0]);
    AcceptedAnyway([b], s, Repeated(l, 259), padding);
  }

  /** Any header the decoder reads and the standard does not allow, if it codes the end of
      the block, is enough for an accepted stream: that of one empty block. */
  lemma EmptyBlockIsAccepted(h: Header) returns (s: seq<Bit>)
    requires h.Valid() && HasCode(h.Literals(), END_OF_BLOCK) && !IsRfcHeader(h)
    ensures IsAcceptedAnyway(s, [])
    ensures exists rest :: IsDeflateOf([Dynamic(h, [])], s, [], rest)
  {
    hide IsRfcHeader, MeetsChecks, HasCode, Inflate, IsDeflateOf, IsRfcDeflateOf;
    var b := Dynamic(h, []);
    var padding;
    s, padding := OneBlock(b);
    RfcHeadersExactly(h);
    assert !BlockMeetsChecks([b][0]);
    AcceptedAnyway([b], s, [], padding);
  }

  // ----- Headers that fail one check each -----

  /** Nineteen places or fewer of the code-length code with two of them given: a run of many
      zeros, and one length. */
  function TwoCodes(place: nat, width: Byte): (codes: seq<Byte>)
    requires 4 <= place < 19
    ensures |codes| == place + 1
  {
    seq(place + 1, i => if i == 2 || i == place then width else 0)
  }

  /** The place of a length of one is 17, that of two 15. */
  predicate IsPlaceOf(place: nat, length: nat) {
    (place == 17 && length == 1) || (place == 15 && length == 2)
  }

  lemma PlacesOf(n: nat)
    requires n < 19
    ensures CodeLengthPlace(n) == 18 <==> n == 2
    ensures CodeLengthPlace(n) == 1 <==> n == 17
    ensures CodeLengthPlace(n) == 2 <==> n == 15
  {
  }

  lemma {:induction false} TwoCodesPlaced(place: nat, length: nat, width: Byte, n: nat)
    requires IsPlaceOf(place, length) && n <= place + 1
    ensures forall i :: 0 <= i < 19 ==>
              Placed(TwoCodes(place, width), n)[i]
              == if (i == 18 && n > 2) || (i == length && n > place) then width else 0
  {
    hide CodeLengthPlace;
    if n > 0 {
      TwoCodesPlaced(place, length, width, n - 1);
      PlacesOf(n - 1);
    }
  }

  /** Only symbols `a` and `b` have codes, of `width` bits. */
  predicate JustTwo(lengths: seq<nat>, a: nat, b: nat, width: nat) {
    a < b < |lengths| && forall i :: 0 <= i < |lengths| ==> lengths[i] == if i == a || i == b then width else 0
  }

  lemma TwoCodesHave(lengths: seq<nat>, a: nat, b: nat, width: nat)
    requires JustTwo(lengths, a, b, width) && 1 <= width <= 2
    ensures HasCode(lengths, a) && HasCode(lengths, b)
    ensures IsFullTree(lengths) <==> width == 1
  {
    FirstSymbolHasCode(lengths, a);
    CountOfTwo(lengths, a, b, width, b);
    NoneShorter(lengths, b, width);
    KraftOfTwo(lengths, a, b, width, |lengths|);
    SmallPowers();
    Fifteen();
  }

  lemma Fifteen()
    ensures Pow2(15) == 0x8000 && Pow2(14) == 0x4000 && Pow2(13) == 0x2000
  {
    SmallPowers();
    assert Pow2(10) == 1024;
    assert Pow2(13) == 0x2000;
  }

  lemma {:induction false} CountOfTwo(lengths: seq<nat>, a: nat, b: nat, width: nat, n: nat)
    requires JustTwo(lengths, a, b, width) && width > 0 && n <= |lengths|
    ensures CountUpTo(lengths, n, width) == (if n > a then 1 else 0) + (if n > b then 1 else 0)
  {
    if n > 0 {
      CountOfTwo(lengths, a, b, width, n - 1);
    }
  }

  lemma {:induction false} KraftOfTwo(lengths: seq<nat>, a: nat, b: nat, width: nat, n: nat)
    requires JustTwo(lengths, a, b, width) && 1 <= width <= 15 && n <= |lengths|
    ensures KraftUpTo(lengths, n) == ((if n > a then 1 else 0) + (if n > b then 1 else 0)) * Pow2(15 - width)
  {
    hide Pow2;
    if n > 0 {
      KraftOfTwo(lengths, a, b, width, n - 1);
    }
  }

  /** The first symbol with a code, at the shortest length there is, has one that fits. */
  lemma FirstSymbolHasCode(lengths: seq<nat>, symbol: nat)
    requires Coded(lengths, symbol)
    requires forall i :: 0 <= i < symbol ==> lengths[i] == 0
    requires forall i :: 0 <= i < |lengths| ==> lengths[i] == 0 || lengths[i] >= lengths[symbol]
    ensures HasCode(lengths, symbol)
  {
    NoneBefore(lengths, symbol, lengths[symbol]);
    NoneShorter(lengths, symbol, lengths[symbol]);
  }

  lemma {:induction false} NoneBefore(lengths: seq<nat>, n: nat, l: nat)
    requires n <= |lengths| && l > 0 && forall i :: 0 <= i < n ==> lengths[i] != l
    ensures CountUpTo(lengths, n, l) == 0
  {
    if n > 0 {
      NoneBefore(lengths, n - 1, l);
    }
  }

  lemma {:induction false} NoneShorter(lengths: seq<nat>, symbol: nat, l: nat)
    requires symbol < |lengths| && l <= lengths[symbol]
    requires forall i :: 0 <= i < |lengths| ==> lengths[i] == 0 || lengths[i] >= lengths[symbol]
    ensures First(lengths, l) == 0
  {
    if l > 0 {
      NoneShorter(lengths, symbol, l - 1);
      if l > 1 {
        NoneBefore(lengths, |lengths|, l - 1);
      }
    }
  }

  /** No literal has a code; then come `n` lengths alike, some zeros, and perhaps one length
      more. */
  function Spread(n: nat, length: Byte, after: nat, tail: nat): (lengths: seq<Byte>)
    ensures |lengths| == 256 + n + after + tail
    ensures forall i :: 0 <= i < |lengths| ==>
              lengths[i] == if 256 <= i < 256 + n || i >= 256 + n + after then length else 0
  {
    Repeated(0, 256) + Repeated(length, n) + Repeated(0, after) + Repeated(length, tail)
  }

  /** `n` lengths one by one. */
  function Singles(length: nat, n: nat): (runs: seq<Run>)
    ensures |runs| == n && forall i :: 0 <= i < n ==> runs[i] == Same(length)
  {
    seq(n, _ => Same(length))
  }

  /** Two runs for the zeros before, `n` lengths one by one, a run for the zeros after, and
      what is left one by one. */
  function RunsOf(n: nat, length: nat, after: nat, tail: nat): (runs: seq<Run>)
    requires after >= 11
  {
    [ManyZeros(127), ManyZeros(107)] + (Singles(length, n) + ([ManyZeros(after - 11)] + Singles(length, tail)))
  }

  function HeaderOf(
    moreLiterals: nat, place: nat, width: Byte, n: nat, length: Byte, after: nat, tail: nat): Header
    requires 4 <= place < 19 && after >= 11
  {
    Header(moreLiterals, 0, TwoCodes(place, width), RunsOf(n, length, after, tail), Spread(n, length, after, tail))
  }

  lemma OneReaches(code: seq<nat>, total: nat, sofar: seq<Byte>, length: Byte, more: seq<Run>, result: seq<Byte>)
    requires length <= 15 && HasCode(code, length) && |sofar| < total
    requires RunsReach(code, total, sofar + [length], more, result)
    ensures RunsReach(code, total, sofar, [Same(length)] + more, result)
  {
    hide HasCode;
    assert ([Same(length)] + more)[1..] == more;
  }

  lemma {:induction false} SameReaches(
    code: seq<nat>, total: nat, sofar: seq<Byte>, n: nat, length: Byte, more: seq<Run>, result: seq<Byte>)
    requires length <= 15 && HasCode(code, length) && |sofar| + n <= total
    requires RunsReach(code, total, sofar + Repeated(length, n), more, result)
    ensures RunsReach(code, total, sofar, Singles(length, n) + more, result)
    decreases n
  {
    hide HasCode, RunsReach;
    if n == 0 {
      assert sofar + Repeated(length, n) == sofar && Singles(length, n) + more == more;
    } else {
      assert sofar + Repeated(length, n) == sofar + [length] + Repeated(length, n - 1);
      SameReaches(code, total, sofar + [length], n - 1, length, more, result);
      OneReaches(code, total, sofar, length, Singles(length, n - 1) + more, result);
      assert Singles(length, n) + more == [Same(length)] + (Singles(length, n - 1) + more);
    }
  }

  lemma RunsOfReach(code: seq<nat>, total: nat, n: nat, length: Byte, after: nat, tail: nat)
    requires length <= 15 && HasCode(code, 18) && HasCode(code, length)
    requires 11 <= after <= 138 && 256 + n < total <= 256 + n + after + tail
    requires tail > 0 ==> total == 256 + n + after + tail
    ensures RunsReach(code, total, [], RunsOf(n, length, after, tail), Spread(n, length, after, tail))
  {
    hide HasCode;
    var all := Spread(n, length, after, tail);
    var last := Singles(length, tail);
    var front := Repeated(0, 256) + Repeated(length, n);
    assert RunsReach(code, total, all, [], all);
    var sofar := front + Repeated(0, after);
    if tail == 0 {
      assert last == [] && sofar == all;
    } else {
      SameReaches(code, total, sofar, tail, length, [], all);
      assert last + [] == last;
    }
    assert RunsReach(code, total, sofar, last, all);
    var runs := [ManyZeros(after - 11)] + last;
    assert runs[1..] == last && ApplyRun(front, runs[0]) == sofar;
    assert RunsReach(code, total, front, runs, all);
    SameReaches(code, total, Repeated(0, 256), n, length, runs, all);
    TwoRunsOfZeros(code, total, Singles(length, n) + runs, all);
  }

  lemma TwoRunsOfZeros(code: seq<nat>, total: nat, more: seq<Run>, all: seq<Byte>)
    requires HasCode(code, 18) && total > 256 && RunsReach(code, total, Repeated(0, 256), more, all)
    ensures RunsReach(code, total, [], [ManyZeros(127), ManyZeros(107)] + more, all)
  {
    hide HasCode;
    var runs := [ManyZeros(127), ManyZeros(107)] + more;
    assert ApplyRun([], runs[0]) == Repeated(0, 138) && ApplyRun(Repeated(0, 138), runs[1]) == Repeated(0, 256);
    assert runs[1..][0] == runs[1] && runs[1..][1..] == more;
    assert RunsReach(code, total, Repeated(0, 138), runs[1..], all);
  }

  lemma {:induction false} KraftOfRange(lengths: seq<nat>, a: nat, n: nat, length: nat, k: nat)
    requires 1 <= length <= 15 && k <= |lengths|
    requires forall i :: 0 <= i < k ==> lengths[i] == if a <= i < a + n then length else 0
    ensures KraftUpTo(lengths, k) == Deflater.Clip(a, k, a + n) * Pow2(15 - length)
  {
    hide Pow2;
    if k > 0 {
      KraftOfRange(lengths, a, n, length, k - 1);
    }
  }

  /** What the checks come to on such a header. */
  lemma ChecksOfHeader(moreLiterals: nat, place: nat, width: Byte, n: nat, length: Byte, after: nat, tail: nat)
    requires IsPlaceOf(place, length) && 1 <= width <= 2 && 0 < n < 20 && 11 <= after <= 138 && tail <= 1
    requires 29 <= moreLiterals <= 30 && 256 + n < moreLiterals + 258 <= 256 + n + after + tail
    requires tail > 0 ==> moreLiterals + 258 == 256 + n + after + tail
    ensures var h := HeaderOf(moreLiterals, place, width, n, length, after, tail);
            && h.Valid() && HasCode(h.Literals(), END_OF_BLOCK)
            && Checks(h) == [moreLiterals <= 29, moreLiterals + 258 == 256 + n + after + tail, width == 1,
                             n * Pow2(15 - length) == Pow2(15), tail == 0 || length == 1]
            && (n * Pow2(15 - length) <= Pow2(15) <==> Kraft(h.Literals()))
  {
    hide HasCode, RunsReach, RunsOf, Pow2, IsFullTree;
    var h := HeaderOf(moreLiterals, place, width, n, length, after, tail);
    TwoCodesPlaced(place, length, width, place + 1);
    var code := Placed(h.codes, |h.codes|);
    assert JustTwo(code, length, 18, width);
    TwoCodesHave(code, length, 18, width);
    RunsOfReach(code, h.Total(), n, length, after, tail);
    hide Placed;
    FirstSymbolHasCode(h.Literals(), 256);
    LiteralTree(h.Literals(), n, length);
    DistanceTree(h.Distances(), tail, length);
  }

  lemma LiteralTree(lengths: seq<nat>, n: nat, length: nat)
    requires 1 <= length <= 15 && |lengths| >= 256 + n
    requires forall i :: 0 <= i < |lengths| ==> lengths[i] == if 256 <= i < 256 + n then length else 0
    ensures IsFullTree(lengths) <==> n * Pow2(15 - length) == Pow2(15)
    ensures Kraft(lengths) <==> n * Pow2(15 - length) <= Pow2(15)
  {
    hide Pow2, KraftUpTo;
    KraftOfRange(lengths, 256, n, length, |lengths|);
  }

  lemma DistanceTree(lengths: seq<nat>, tail: nat, length: nat)
    requires |lengths| == 1 && tail <= 1 && 1 <= length <= 2 && lengths[0] == if tail == 1 then length else 0
    ensures IsDistanceTree(lengths) <==> tail == 0 || length == 1
  {
    Fifteen();
    assert KraftUpTo(lengths, 0) == 0;
    assert KraftUpTo(lengths, 1) < 0x8000;
    if tail == 1 {
      assert Coded(lengths, 0);
      assert length == 1 ==> OneBit(lengths, 0);
    }
  }

  /** The header passes every check but one, and its empty block is accepted. */
  ghost predicate FailsOnly(h: Header, check: nat, s: seq<Bit>)
    requires check < 5
  {
    && h.Valid() && Checks(h) == [true, true, true, true, true][check := false]
    && IsAcceptedAnyway(s, []) && exists rest :: IsDeflateOf([Dynamic(h, [])], s, [], rest)
  }

  lemma FailingIsAccepted(
    moreLiterals: nat, place: nat, width: Byte, n: nat, length: Byte, after: nat, tail: nat, check: nat)
    returns (s: seq<Bit>)
    requires IsPlaceOf(place, length) && 1 <= width <= 2 && 0 < n < 20 && 11 <= after <= 138 && tail <= 1
    requires 29 <= moreLiterals <= 30 && 256 + n < moreLiterals + 258 <= 256 + n + after + tail
    requires tail > 0 ==> moreLiterals + 258 == 256 + n + after + tail
    requires check < 5 && [moreLiterals <= 29, moreLiterals + 258 == 256 + n + after + tail, width == 1,
                           n * Pow2(15 - length) == Pow2(15), tail == 0 || length == 1]
                          == [true, true, true, true, true][check := false]
    ensures FailsOnly(HeaderOf(moreLiterals, place, width, n, length, after, tail), check, s)
    ensures HeaderOf(moreLiterals, place, width, n, length, after, tail).Valid()
    ensures Kraft(HeaderOf(moreLiterals, place, width, n, length, after, tail).Literals()) <==>
            n * Pow2(15 - length) <= Pow2(15)
  {
    hide HasCode, Checks, IsRfcHeader, IsDeflateOf, IsAcceptedAnyway, HeaderOf, Pow2;
    var h := HeaderOf(moreLiterals, place, width, n, length, after, tail);
    ChecksOfHeader(moreLiterals, place, width, n, length, after, tail);
    RfcHeadersExactly(h);
    assert !Checks(h)[check];
    s := EmptyBlockIsAccepted(h);
  }

  /** 287 literal codes declared. */
  lemma TooManyCodesAreAccepted() returns (s: seq<Bit>)
    ensures FailsOnly(HeaderOf(30, 17, 1, 2, 1, 30, 0), 0, s)
  {
    hide HeaderOf, FailsOnly, Pow2;
    Fifteen();
    s := FailingIsAccepted(30, 17, 1, 2, 1, 30, 0, 0);
  }

  /** A last run that goes past the lengths declared. */
  lemma OvershootingRunsAreAccepted() returns (s: seq<Bit>)
    ensures FailsOnly(HeaderOf(29, 17, 1, 2, 1, 30, 0), 1, s)
  {
    hide HeaderOf, FailsOnly, Pow2;
    Fifteen();
    s := FailingIsAccepted(29, 17, 1, 2, 1, 30, 0, 1);
  }

  /** A code-length code of two codes, both of two bits. */
  lemma IncompleteCodeLengthsAreAccepted() returns (s: seq<Bit>)
    ensures FailsOnly(HeaderOf(29, 17, 2, 2, 1, 29, 0), 2, s)
  {
    hide HeaderOf, FailsOnly, Pow2;
    Fifteen();
    s := FailingIsAccepted(29, 17, 2, 2, 1, 29, 0, 2);
  }

  lemma ThreeOfOneBit()
    ensures IsPlaceOf(17, 1) && 3 * Pow2(15 - 1) > Pow2(15)
  {
    Fifteen();
  }

  /** Three literal codes of one bit. */
  lemma OverSubscribedListsAreAccepted() returns (s: seq<Bit>)
    ensures FailsOnly(HeaderOf(29, 17, 1, 3, 1, 28, 0), 3, s)
    ensures HeaderOf(29, 17, 1, 3, 1, 28, 0).Valid() && !Kraft(HeaderOf(29, 17, 1, 3, 1, 28, 0).Literals())
  {
    hide *;
    Fifteen();
    ThreeOfOneBit();
    s := FailingIsAccepted(29, 17, 1, 3, 1, 28, 0, 3);
  }

  /** One literal code of one bit. */
  lemma IncompleteListsAreAccepted() returns (s: seq<Bit>)
    ensures FailsOnly(HeaderOf(29, 17, 1, 1, 1, 30, 0), 3, s)
    ensures HeaderOf(29, 17, 1, 1, 1, 30, 0).Valid() && Kraft(HeaderOf(29, 17, 1, 1, 1, 30, 0).Literals())
  {
    hide HeaderOf, FailsOnly, Pow2, Kraft;
    Fifteen();
    s := FailingIsAccepted(29, 17, 1, 1, 1, 30, 0, 3);
  }

  /** One distance code, of two bits. */
  lemma LongSingleDistanceIsAccepted() returns (s: seq<Bit>)
    ensures FailsOnly(HeaderOf(29, 15, 1, 4, 2, 26, 1), 4, s)
  {
    hide HeaderOf, FailsOnly, Pow2;
    Fifteen();
    s := FailingIsAccepted(29, 15, 1, 4, 2, 26, 1, 4);
  }

  /** One distance code of one bit is allowed. */
  lemma SingleDistanceIsAllowed()
    ensures IsRfcHeader(HeaderOf(29, 17, 1, 2, 1, 28, 1))
  {
    hide HeaderOf, Checks, HasCode, IsRfcHeader, Pow2;
    Fifteen();
    ChecksOfHeader(29, 17, 1, 2, 1, 28, 1);
    RfcHeadersExactly(HeaderOf(29, 17, 1, 2, 1, 28, 1));
  }
}
