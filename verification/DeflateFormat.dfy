/** The DEFLATE format as a grammar: which bits stand for which blocks, and
    which bytes blocks stand for. It is RFC 1951's, but for the checks that the
    decoder leaves out. Nothing here reads or writes; the decoder
    and the compressor are both held to it, and the one against the other through
    it. */
module DeflateFormat {
  import opened Bits
  import opened Huffman

  const LENGTH_BASE: seq<nat> := [
    3, 4, 5, 6, 7, 8, 9, 10, 11, 13, 15, 17, 19, 23, 27, 31, 35, 43, 51, 59, 67, 83, 99, 115, 131,
    163, 195, 227, 258
  ]

  const LENGTH_EXTRA: seq<nat> := [
    0, 0, 0, 0, 0, 0, 0, 0, 1, 1, 1, 1, 2, 2, 2, 2, 3, 3, 3, 3, 4, 4, 4, 4, 5, 5, 5, 5, 0
  ]

  const DISTANCE_BASE: seq<nat> := [
    1, 2, 3, 4, 5, 7, 9, 13, 17, 25, 33, 49, 65, 97, 129, 193, 257, 385, 513, 769, 1025, 1537,
    2049, 3073, 4097, 6145, 8193, 12289, 16385, 24577
  ]

  const DISTANCE_EXTRA: seq<nat> := [
    0, 0, 0, 0, 1, 1, 2, 2, 3, 3, 4, 4, 5, 5, 6, 6, 7, 7, 8, 8, 9, 9, 10, 10, 11, 11, 12, 12, 13, 13
  ]

  function LengthBase(code: nat): nat
    requires code < 29
  {
    LENGTH_BASE[code]
  }

  function LengthExtra(code: nat): nat
    requires code < 29
  {
    LENGTH_EXTRA[code]
  }

  function DistanceBase(code: nat): nat
    requires code < 30
  {
    DISTANCE_BASE[code]
  }

  function DistanceExtra(code: nat): nat
    requires code < 30
  {
    DISTANCE_EXTRA[code]
  }

  /** The lengths without their tables: eight codes of one length each, and then four
      codes to every number of extra bits, but for the last code, which is 258 alone. */
  lemma LengthsByRule(code: nat)
    requires code < 29
    ensures LengthExtra(code) == if code < 8 || code == 28 then 0 else code / 4 - 1
    ensures LengthBase(code) == if code == 28 then 258
                                else if code < 8 then 3 + code
                                else 3 + (4 + code % 4) * Pow2(code / 4 - 1)
  {
    SmallPowers();
  }

  /** And the distances: four codes of one distance each, and then two codes to every
      number of extra bits. */
  lemma DistancesByRule(code: nat)
    requires code < 30
    ensures DistanceExtra(code) == if code < 4 then 0 else code / 2 - 1
    ensures DistanceBase(code) == if code < 4 then 1 + code else 1 + (2 + code % 2) * Pow2(code / 2 - 1)
  {
    SmallPowers();
    Pow2Of8();
    assert Pow2(10) == 4 * Pow2(8) && Pow2(12) == 4 * Pow2(10);
    hide Pow2;
  }

  const CODE_LENGTH_ORDER: seq<nat> := [16, 17, 18, 0, 8, 7, 9, 6, 10, 5, 11, 4, 12, 3, 13, 2, 14, 1, 15]

  function CodeLengthPlace(n: nat): (place: nat)
    requires n < 19
    ensures place < 19
  {
    CODE_LENGTH_ORDER[n]
  }

  const END_OF_BLOCK := 256

  /** The code lengths of a fixed-Huffman block (section 3.2.6 of RFC 1951). */
  function FixedLiteralLength(symbol: nat): Byte {
    if symbol <= 143 then 8
    else if symbol <= 255 then 9
    else if symbol <= 279 then 7
    else 8
  }

  function FixedLiterals(): (lengths: seq<Byte>)
    ensures |lengths| == 288
  {
    seq(288, symbol requires symbol >= 0 => FixedLiteralLength(symbol))
  }

  function FixedDistances(): (lengths: seq<Byte>)
    ensures |lengths| == 30
  {
    seq(30, _ => 5)
  }

  // ----- Tokens -----

  /** One symbol of compressed data with the extra bits that follow it. */
  datatype Token =
    | Literal(byte: Byte)
    | Match(lengthCode: nat, lengthExtra: nat, distanceCode: nat, distanceExtra: nat)

  predicate WellFormed(t: Token) {
    t.Match? ==>
      && t.lengthCode < 29 && t.lengthExtra < Pow2(LengthExtra(t.lengthCode))
      && t.distanceCode < 30 && t.distanceExtra < Pow2(DistanceExtra(t.distanceCode))
  }

  function MatchLength(t: Token): nat
    requires t.Match? && WellFormed(t)
  {
    LengthBase(t.lengthCode) + t.lengthExtra
  }

  function MatchDistance(t: Token): nat
    requires t.Match? && WellFormed(t)
  {
    DistanceBase(t.distanceCode) + t.distanceExtra
  }

  lemma DistanceIsPositive(code: nat)
    requires code < 30
    ensures DistanceBase(code) >= 1
  {
  }

  /** Both codes have every symbol the token needs. */
  predicate Encodable(literals: seq<nat>, distances: seq<nat>, t: Token) {
    && WellFormed(t)
    && (t.Literal? ==> HasCode(literals, t.byte))
    && (t.Match? ==> HasCode(literals, 257 + t.lengthCode) && HasCode(distances, t.distanceCode))
  }

  function TokenBits(literals: seq<nat>, distances: seq<nat>, t: Token): seq<Bit>
    requires Encodable(literals, distances, t)
  {
    if t.Literal? then CodeBits(literals, t.byte)
    else
      CodeBits(literals, 257 + t.lengthCode) + LsbBits(t.lengthExtra, LengthExtra(t.lengthCode)) +
      CodeBits(distances, t.distanceCode) + LsbBits(t.distanceExtra, DistanceExtra(t.distanceCode))
  }

  ghost predicate AllEncodable(literals: seq<nat>, distances: seq<nat>, ts: seq<Token>) {
    forall i :: 0 <= i < |ts| ==> Encodable(literals, distances, ts[i])
  }

  ghost function TokensBits(literals: seq<nat>, distances: seq<nat>, ts: seq<Token>): seq<Bit>
    requires AllEncodable(literals, distances, ts)
  {
    if ts == [] then [] else
    TokenBits(literals, distances, ts[0]) + TokensBits(literals, distances, ts[1..])
  }

  lemma {:induction false} TokensBitsAppend(literals: seq<nat>, distances: seq<nat>, ts: seq<Token>, t: Token)
    requires AllEncodable(literals, distances, ts) && Encodable(literals, distances, t)
    ensures AllEncodable(literals, distances, ts + [t])
    ensures TokensBits(literals, distances, ts + [t]) ==
            TokensBits(literals, distances, ts) + TokenBits(literals, distances, t)
  {
    hide Encodable, TokenBits;
    var all := ts + [t];
    assert forall i :: 0 <= i < |all| ==> Encodable(literals, distances, all[i]);
    if ts == [] {
      assert all[1..] == [];
    } else {
      assert all[1..] == ts[1..] + [t] && all[0] == ts[0];
      TokensBitsAppend(literals, distances, ts[1..], t);
    }
  }

  /** `n` more bytes, each the byte `distance` before it: the copy may run into
      bytes it has itself produced. */
  function Copied(out: seq<Byte>, distance: nat, n: nat): (r: seq<Byte>)
    requires 1 <= distance <= |out|
    ensures |r| == |out| + n && out <= r
    ensures forall k :: |out| <= k < |r| ==> r[k] == r[k - distance]
  {
    if n == 0 then out
    else
      var so := Copied(out, distance, n - 1);
      so + [so[|so| - distance]]
  }

  /** Any continuation that repeats itself at that distance is the copy. */
  lemma {:induction false} CopiedIsUnique(out: seq<Byte>, distance: nat, r: seq<Byte>)
    requires 1 <= distance <= |out| && out <= r
    requires forall k :: |out| <= k < |r| ==> r[k] == r[k - distance]
    ensures Copied(out, distance, |r| - |out|) == r
    decreases |r|
  {
    if |r| > |out| {
      CopiedIsUnique(out, distance, r[..|r| - 1]);
      assert r == r[..|r| - 1] + [r[|r| - 1 - distance]];
    } else {
      assert r == out;
    }
  }

  predicate Applies(out: seq<Byte>, t: Token) {
    WellFormed(t) && (t.Match? ==> MatchDistance(t) <= |out|)
  }

  function Apply(out: seq<Byte>, t: Token): seq<Byte>
    requires Applies(out, t)
  {
    match t
    case Literal(byte) => out + [byte]
    case Match(_, _, code, _) =>
      DistanceIsPositive(code);
      Copied(out, MatchDistance(t), MatchLength(t))
  }

  lemma AppliesMatch(out: seq<Byte>, t: Token)
    requires t.Match? && WellFormed(t)
    ensures LengthBase(t.lengthCode) + t.lengthExtra == MatchLength(t)
    ensures DistanceBase(t.distanceCode) + t.distanceExtra == MatchDistance(t) >= 1
    ensures Applies(out, t) <==> MatchDistance(t) <= |out|
    ensures Applies(out, t) ==> Apply(out, t) == Copied(out, MatchDistance(t), MatchLength(t))
  {
    hide LengthBase, LengthExtra, DistanceBase, DistanceExtra, Pow2, Copied;
    DistanceIsPositive(t.distanceCode);
  }

  lemma AppliesLiteral(out: seq<Byte>, b: Byte)
    ensures Applies(out, Literal(b)) && Apply(out, Literal(b)) == out + [b]
  {
  }

  /** Every match of the tokens stays inside what has been produced. */
  ghost predicate Follow(out: seq<Byte>, ts: seq<Token>)
    decreases |ts|
  {
    ts == [] || (Applies(out, ts[0]) && Follow(Apply(out, ts[0]), ts[1..]))
  }

  /** What the tokens stand for, appended to `out`. */
  ghost function Output(out: seq<Byte>, ts: seq<Token>): seq<Byte>
    requires Follow(out, ts)
    decreases |ts|
  {
    if ts == [] then out else Output(Apply(out, ts[0]), ts[1..])
  }

  lemma {:induction false} OutputAppend(out: seq<Byte>, ts: seq<Token>, t: Token)
    requires Follow(out, ts) && Applies(Output(out, ts), t)
    ensures Follow(out, ts + [t]) && Output(out, ts + [t]) == Apply(Output(out, ts), t)
    decreases |ts|
  {
    if ts == [] {
      assert (ts + [t])[1..] == [];
    } else {
      assert (ts + [t])[1..] == ts[1..] + [t];
      OutputAppend(Apply(out, ts[0]), ts[1..], t);
    }
  }

  // ----- The header of a dynamic block -----

  /** One symbol of the run-length coded list of code lengths. */
  datatype Run =
    | Same(length: nat)
    | Again(extra: nat)
    | Zeros(extra: nat)
    | ManyZeros(extra: nat)

  predicate WellFormedRun(run: Run) {
    match run
    case Same(length) => length <= 15
    case Again(extra) => extra < 4
    case Zeros(extra) => extra < 8
    case ManyZeros(extra) => extra < 128
  }

  function RunSymbol(run: Run): nat
    requires WellFormedRun(run)
  {
    match run
    case Same(length) => length
    case Again(_) => 16
    case Zeros(_) => 17
    case ManyZeros(_) => 18
  }

  function RunExtraBits(run: Run): seq<Bit> {
    match run
    case Same(_) => []
    case Again(extra) => LsbBits(extra, 2)
    case Zeros(extra) => LsbBits(extra, 3)
    case ManyZeros(extra) => LsbBits(extra, 7)
  }

  function Repeated(length: Byte, n: nat): (s: seq<Byte>)
    ensures |s| == n
  {
    seq(n, _ => length)
  }

  predicate RunApplies(sofar: seq<Byte>, run: Run) {
    WellFormedRun(run) && (run.Again? ==> sofar != [])
  }

  function ApplyRun(sofar: seq<Byte>, run: Run): (r: seq<Byte>)
    requires RunApplies(sofar, run)
    ensures |r| > |sofar|
  {
    match run
    case Same(length) => sofar + [length]
    case Again(extra) => sofar + Repeated(sofar[|sofar| - 1], 3 + extra)
    case Zeros(extra) => sofar + Repeated(0, 3 + extra)
    case ManyZeros(extra) => sofar + Repeated(0, 11 + extra)
  }

  predicate RunEncodable(code: seq<nat>, run: Run) {
    WellFormedRun(run) && HasCode(code, RunSymbol(run))
  }

  function RunBits(code: seq<nat>, run: Run): seq<Bit>
    requires RunEncodable(code, run)
  {
    CodeBits(code, RunSymbol(run)) + RunExtraBits(run)
  }

  /** The runs describe at least `total` lengths and none is superfluous. */
  ghost predicate RunsReach(code: seq<nat>, total: nat, sofar: seq<Byte>, runs: seq<Run>, result: seq<Byte>)
    decreases |runs|
  {
    if |sofar| >= total then runs == [] && result == sofar
    else
      && runs != [] && RunEncodable(code, runs[0]) && RunApplies(sofar, runs[0])
      && RunsReach(code, total, ApplyRun(sofar, runs[0]), runs[1..], result)
  }

  ghost function RunsBits(code: seq<nat>, runs: seq<Run>): seq<Bit>
    requires forall i :: 0 <= i < |runs| ==> RunEncodable(code, runs[i])
  {
    if runs == [] then [] else RunBits(code, runs[0]) + RunsBits(code, runs[1..])
  }

  lemma {:induction false} RunsReachEncodable(code: seq<nat>, total: nat, sofar: seq<Byte>, runs: seq<Run>, result: seq<Byte>)
    requires RunsReach(code, total, sofar, runs, result)
    ensures forall i :: 0 <= i < |runs| ==> RunEncodable(code, runs[i])
    ensures |result| >= total
    decreases |runs|
  {
    if |sofar| < total {
      RunsReachEncodable(code, total, ApplyRun(sofar, runs[0]), runs[1..], result);
      forall i | 0 <= i < |runs|
        ensures RunEncodable(code, runs[i])
      {
        assert i > 0 ==> runs[i] == runs[1..][i - 1];
      }
    }
  }

  /** The nineteen code lengths of the code-length code, given the first few in
      the order the format writes them in. */
  function Placed(codes: seq<Byte>, n: nat): (lengths: seq<Byte>)
    requires n <= |codes| && n <= 19
    ensures |lengths| == 19
  {
    if n == 0 then Repeated(0, 19)
    else Placed(codes, n - 1)[CodeLengthPlace(n - 1) := codes[n - 1]]
  }

  /** Where the length of a code is written, by rule: 16, 17, 18 and 0 first, and
      then the lengths outward from 8, each before its mirror image in 7 and a half. */
  function PlaceOf(length: nat): nat
    requires length < 19
  {
    if length >= 16 then length - 16
    else if length == 0 then 3
    else if length >= 8 then 2 * length - 12
    else 19 - 2 * length
  }

  /** The order of the code lengths without its table, and each in it once. */
  lemma PlacesByRule(n: nat)
    requires n < 19
    ensures CodeLengthPlace(n) ==
            if n < 3 then 16 + n
            else if n == 3 then 0
            else if n % 2 == 0 then 8 + (n - 4) / 2
            else 7 - (n - 5) / 2
    ensures PlaceOf(n) < 19 && PlaceOf(CodeLengthPlace(n)) == n && CodeLengthPlace(PlaceOf(n)) == n
  {
  }

  /** Each code length ends up where the rule says, and those not written are zero. */
  lemma {:induction false} PlacedAt(codes: seq<Byte>, n: nat, length: nat)
    requires n <= |codes| && n <= 19 && length < 19
    ensures Placed(codes, n)[length] == if PlaceOf(length) < n then codes[PlaceOf(length)] else 0
  {
    hide CodeLengthPlace, PlaceOf;
    if n > 0 {
      PlacedAt(codes, n - 1, length);
      PlacesByRule(n - 1);
      PlacesByRule(length);
    }
  }

  function ThreeBits(codes: seq<Byte>): seq<Bit> {
    if codes == [] then [] else LsbBits(codes[0], 3) + ThreeBits(codes[1..])
  }

  /** How many literal and distance codes there are beyond the least allowed,
      the code-length code, and the runs that spell the lengths out. */
  datatype Header = Header(moreLiterals: nat, moreDistances: nat, codes: seq<Byte>, runs: seq<Run>, lengths: seq<Byte>) {
    ghost predicate Valid() {
      && moreLiterals < 32 && moreDistances < 32
      && 4 <= |codes| <= 19 && (forall i :: 0 <= i < |codes| ==> codes[i] < 8)
      && RunsReach(Placed(codes, |codes|), Total(), [], runs, lengths)
    }

    function Total(): nat {
      moreLiterals + 257 + moreDistances + 1
    }

    ghost function Bits(): seq<Bit>
      requires Valid()
    {
      RunsReachEncodable(Placed(codes, |codes|), Total(), [], runs, lengths);
      LsbBits(moreLiterals, 5) + LsbBits(moreDistances, 5) + LsbBits(|codes| - 4, 4) +
      ThreeBits(codes) + RunsBits(Placed(codes, |codes|), runs)
    }

    ghost function Literals(): seq<Byte>
      requires Valid()
    {
      RunsReachEncodable(Placed(codes, |codes|), Total(), [], runs, lengths);
      lengths[..moreLiterals + 257]
    }

    /** Lengths the last run gave beyond the total are dropped. */
    ghost function Distances(): seq<Byte>
      requires Valid()
    {
      RunsReachEncodable(Placed(codes, |codes|), Total(), [], runs, lengths);
      lengths[moreLiterals + 257..Total()]
    }
  }

  // ----- Blocks and streams -----

  datatype Block =
    | Stored(padding: seq<Bit>, data: seq<Byte>)
    | Fixed(tokens: seq<Token>)
    | Dynamic(header: Header, tokens: seq<Token>)

  ghost predicate CompressedValid(literals: seq<nat>, distances: seq<nat>, ts: seq<Token>) {
    AllEncodable(literals, distances, ts) && HasCode(literals, END_OF_BLOCK)
  }

  ghost function CompressedBits(literals: seq<nat>, distances: seq<nat>, ts: seq<Token>): seq<Bit>
    requires CompressedValid(literals, distances, ts)
  {
    TokensBits(literals, distances, ts) + CodeBits(literals, END_OF_BLOCK)
  }

  /** A block that may stand `at` bits into a stream. */
  ghost predicate BlockValid(b: Block, at: nat) {
    match b
    case Stored(padding, data) => |padding| < 8 && (at + 3 + |padding|) % 8 == 0 && |data| < 0x1_0000
    case Fixed(ts) => CompressedValid(FixedLiterals(), FixedDistances(), ts)
    case Dynamic(h, ts) => h.Valid() && CompressedValid(h.Literals(), h.Distances(), ts)
  }

  ghost function BodyBits(b: Block, at: nat): seq<Bit>
    requires BlockValid(b, at)
  {
    match b
    case Stored(padding, data) =>
      padding + LsbBits(|data|, 16) + LsbBits(0xffff - |data|, 16) + StreamBits(data)
    case Fixed(ts) => CompressedBits(FixedLiterals(), FixedDistances(), ts)
    case Dynamic(h, ts) => h.Bits() + CompressedBits(h.Literals(), h.Distances(), ts)
  }

  function TypeOf(b: Block): nat {
    match b
    case Stored(_, _) => 0
    case Fixed(_) => 1
    case Dynamic(_, _) => 2
  }

  ghost function BlockBits(b: Block, at: nat, last: bool): seq<Bit>
    requires BlockValid(b, at)
  {
    LsbBits(if last then 1 else 0, 1) + LsbBits(TypeOf(b), 2) + BodyBits(b, at)
  }

  /** Where the next block starts. */
  ghost function After(b: Block, at: nat): nat
    requires BlockValid(b, at)
  {
    at + |BlockBits(b, at, false)|
  }

  ghost predicate BlockFollows(out: seq<Byte>, b: Block) {
    match b
    case Stored(_, _) => true
    case Fixed(ts) => Follow(out, ts)
    case Dynamic(_, ts) => Follow(out, ts)
  }

  ghost function BlockOutput(out: seq<Byte>, b: Block): seq<Byte>
    requires BlockFollows(out, b)
  {
    match b
    case Stored(_, data) => out + data
    case Fixed(ts) => Output(out, ts)
    case Dynamic(_, ts) => Output(out, ts)
  }

  /** A stream: one block or more, the last of them flagged as the last. */
  ghost predicate StreamValid(blocks: seq<Block>, at: nat)
    decreases |blocks|
  {
    && blocks != []
    && BlockValid(blocks[0], at)
    && (|blocks| > 1 ==> StreamValid(blocks[1..], After(blocks[0], at)))
  }

  ghost function BlocksBits(blocks: seq<Block>, at: nat): seq<Bit>
    requires StreamValid(blocks, at)
    decreases |blocks|
  {
    if |blocks| == 1 then BlockBits(blocks[0], at, true)
    else
      BlockBits(blocks[0], at, false) +
      BlocksBits(blocks[1..], After(blocks[0], at))
  }

  ghost predicate StreamFollows(out: seq<Byte>, blocks: seq<Block>)
    decreases |blocks|
  {
    blocks == [] || (BlockFollows(out, blocks[0]) && StreamFollows(BlockOutput(out, blocks[0]), blocks[1..]))
  }

  /** What the blocks stand for, appended to `out`. */
  ghost function StreamOutput(out: seq<Byte>, blocks: seq<Block>): seq<Byte>
    requires StreamFollows(out, blocks)
    decreases |blocks|
  {
    if blocks == [] then out else StreamOutput(BlockOutput(out, blocks[0]), blocks[1..])
  }

  /** The blocks are a stream for `data`, and `s` is their bits and then `rest`. */
  ghost predicate Encodes(blocks: seq<Block>, at: nat, s: seq<Bit>, out: seq<Byte>, data: seq<Byte>, rest: seq<Bit>) {
    && StreamValid(blocks, at) && s == BlocksBits(blocks, at) + rest
    && StreamFollows(out, blocks) && StreamOutput(out, blocks) == data
  }
}
