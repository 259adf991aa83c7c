/** The decoder as a function on bits, and the proof that it accepts exactly the
    streams of the grammar and returns exactly what they stand for. */
module InflateSpec {
  import opened Bits
  import opened BitStreams
  import opened Huffman
  import opened DeflateFormat
  import opened Wrappers

  // ----- Compressed data -----

  /** What stands next in compressed data. */
  datatype Item = End | Data(token: Token)

  function ParseMatch(distances: seq<nat>, s: seq<Bit>, index: nat): (p: Parse<Item>)
    ensures p.Done? ==> |p.rest| < |s| && p.value.Data? && p.value.token.Match? && WellFormed(p.value.token)
  {
    if index >= 29 then Fail(NoSuchLengthCode)
    else
      var (lengthExtra, s1) :- Take(s, LengthExtra(index));
      var (code, s2) :- Decode(distances, s1);
      if code >= 30 then Fail(NoSuchDistanceCode)
      else
        var (distanceExtra, s3) :- Take(s2, DistanceExtra(code));
        TakeExact(s, LengthExtra(index), lengthExtra, s1);
        TakeExact(s2, DistanceExtra(code), distanceExtra, s3);
        Done(Data(Match(index, lengthExtra, code, distanceExtra)), s3)
  }

  function ParseItem(literals: seq<nat>, distances: seq<nat>, s: seq<Bit>): (p: Parse<Item>)
    ensures p.Done? ==> |p.rest| < |s|
    ensures p.Done? && p.value.Data? ==> WellFormed(p.value.token)
  {
    var (symbol, s1) :- Decode(literals, s);
    if symbol == END_OF_BLOCK then Done(End, s1)
    else if symbol < END_OF_BLOCK then Done(Data(Literal(symbol)), s1)
    else ParseMatch(distances, s1, symbol - 257)
  }

  predicate ItemEncodable(literals: seq<nat>, distances: seq<nat>, item: Item) {
    match item
    case End => HasCode(literals, END_OF_BLOCK)
    case Data(t) => Encodable(literals, distances, t)
  }

  function ItemBits(literals: seq<nat>, distances: seq<nat>, item: Item): seq<Bit>
    requires ItemEncodable(literals, distances, item)
  {
    match item
    case End => CodeBits(literals, END_OF_BLOCK)
    case Data(t) => TokenBits(literals, distances, t)
  }

  lemma ParseMatchSound(distances: seq<nat>, s: seq<Bit>, index: nat)
    requires ParseMatch(distances, s, index).Done?
    ensures var p := ParseMatch(distances, s, index); var t := p.value.token;
            && t.lengthCode == index && HasCode(distances, t.distanceCode)
            && s == LsbBits(t.lengthExtra, LengthExtra(t.lengthCode)) +
                    CodeBits(distances, t.distanceCode) +
                    LsbBits(t.distanceExtra, DistanceExtra(t.distanceCode)) + p.rest
  {
    hide LengthBase, LengthExtra, DistanceBase, DistanceExtra, Decode, HasCode, CodeBits, LsbBits, Take, Pow2;
    var p1 := Take(s, LengthExtra(index));
    TakeExact(s, LengthExtra(index), p1.value, p1.rest);
    var p2 := Decode(distances, p1.rest);
    DecodeIsTheCanonicalCode(distances, p1.rest, p2.value, p2.rest);
    var p3 := Take(p2.rest, DistanceExtra(p2.value));
    TakeExact(p2.rest, DistanceExtra(p2.value), p3.value, p3.rest);
    Regroup3(LsbBits(p1.value, LengthExtra(index)), CodeBits(distances, p2.value),
             LsbBits(p3.value, DistanceExtra(p2.value)), p3.rest);
  }

  lemma ParseMatchComplete(distances: seq<nat>, t: Token, rest: seq<Bit>)
    requires t.Match? && WellFormed(t) && HasCode(distances, t.distanceCode)
    ensures ParseMatch(distances,
                       LsbBits(t.lengthExtra, LengthExtra(t.lengthCode)) +
                       CodeBits(distances, t.distanceCode) +
                       LsbBits(t.distanceExtra, DistanceExtra(t.distanceCode)) + rest,
                       t.lengthCode) == Done(Data(t), rest)
  {
    hide LengthBase, LengthExtra, DistanceBase, DistanceExtra, Decode, CodeOf, CodeBits, LsbBits, Take, Pow2;
    var a := LsbBits(t.lengthExtra, LengthExtra(t.lengthCode));
    var b := CodeBits(distances, t.distanceCode);
    var c := LsbBits(t.distanceExtra, DistanceExtra(t.distanceCode));
    Regroup3(a, b, c, rest);
    TakeExact(a + (b + (c + rest)), LengthExtra(t.lengthCode), t.lengthExtra, b + (c + rest));
    DecodeInvertsCode(distances, t.distanceCode, c + rest);
    TakeExact(c + rest, DistanceExtra(t.distanceCode), t.distanceExtra, rest);
  }

  lemma ParseItemSound(literals: seq<nat>, distances: seq<nat>, s: seq<Bit>)
    requires ParseItem(literals, distances, s).Done?
    ensures var p := ParseItem(literals, distances, s);
            ItemEncodable(literals, distances, p.value) &&
            s == ItemBits(literals, distances, p.value) + p.rest
  {
    hide LengthBase, LengthExtra, DistanceBase, DistanceExtra, Decode, HasCode, CodeBits, LsbBits, Take, Pow2;
    var p1 := Decode(literals, s);
    DecodeIsTheCanonicalCode(literals, s, p1.value, p1.rest);
    if p1.value > END_OF_BLOCK {
      ParseMatchSound(distances, p1.rest, p1.value - 257);
      var p := ParseItem(literals, distances, s);
      var t := p.value.token;
      var c, a, b, d := CodeBits(literals, 257 + t.lengthCode), LsbBits(t.lengthExtra, LengthExtra(t.lengthCode)),
        CodeBits(distances, t.distanceCode), LsbBits(t.distanceExtra, DistanceExtra(t.distanceCode));
      Regroup3(a, b, d, p.rest);
      Regroup4(c, a, b, d, p.rest);
    }
  }

  lemma ParseItemComplete(literals: seq<nat>, distances: seq<nat>, item: Item, rest: seq<Bit>)
    requires ItemEncodable(literals, distances, item)
    ensures ParseItem(literals, distances, ItemBits(literals, distances, item) + rest) == Done(item, rest)
  {
    hide LengthBase, LengthExtra, DistanceBase, DistanceExtra, Decode, CodeOf, CodeBits, LsbBits, Take, Pow2;
    match item {
      case End => DecodeInvertsCode(literals, END_OF_BLOCK, rest);
      case Data(t) =>
        if t.Literal? {
          DecodeInvertsCode(literals, t.byte, rest);
        } else {
          ParseMatchComplete(distances, t, rest);
          var c, a, b, d := CodeBits(literals, 257 + t.lengthCode), LsbBits(t.lengthExtra, LengthExtra(t.lengthCode)),
            CodeBits(distances, t.distanceCode), LsbBits(t.distanceExtra, DistanceExtra(t.distanceCode));
          Regroup3(a, b, d, rest);
          Regroup4(c, a, b, d, rest);
          DecodeInvertsCode(literals, 257 + t.lengthCode, a + b + d + rest);
        }
    }
  }

  /** Decodes one block of compressed data onto the end of `out`. */
  function Compressed(literals: seq<nat>, distances: seq<nat>, s: seq<Bit>, out: seq<Byte>): (p: Parse<seq<Byte>>)
    ensures p.Done? ==> |p.rest| < |s|
    decreases |s|
  {
    var (item, rest) :- ParseItem(literals, distances, s);
    match item
    case End => Done(out, rest)
    case Data(t) =>
      if !Applies(out, t) then Fail(ReachesBeforeOutput)
      else Compressed(literals, distances, rest, Apply(out, t))
  }

  lemma {:induction false} CompressedSound(literals: seq<nat>, distances: seq<nat>, s: seq<Bit>, out: seq<Byte>)
    returns (ts: seq<Token>)
    requires Compressed(literals, distances, s, out).Done?
    ensures CompressedValid(literals, distances, ts)
    ensures s == CompressedBits(literals, distances, ts) + Compressed(literals, distances, s, out).rest
    ensures Follow(out, ts) && Output(out, ts) == Compressed(literals, distances, s, out).value
    decreases |s|
  {
    hide ParseItem, HasCode, CodeBits, Encodable, TokenBits, Apply, Applies;
    ParseItemSound(literals, distances, s);
    var p := ParseItem(literals, distances, s);
    match p.value {
      case End =>
        ts := [];
      case Data(t) =>
        var tail := CompressedSound(literals, distances, p.rest, Apply(out, t));
        ts := [t] + tail;
        assert ts[1..] == tail;
        assert forall i :: 0 < i < |ts| ==> ts[i] == tail[i - 1];
    }
  }

  lemma {:induction false} CompressedComplete(literals: seq<nat>, distances: seq<nat>, ts: seq<Token>, out: seq<Byte>, rest: seq<Bit>)
    requires CompressedValid(literals, distances, ts) && Follow(out, ts)
    ensures Compressed(literals, distances, CompressedBits(literals, distances, ts) + rest, out)
         == Done(Output(out, ts), rest)
    decreases |ts|
  {
    hide ParseItem, HasCode, CodeBits, Encodable, TokenBits, Apply, Applies;
    var s := CompressedBits(literals, distances, ts) + rest;
    if ts == [] {
      assert s == ItemBits(literals, distances, End) + rest;
      ParseItemComplete(literals, distances, End, rest);
    } else {
      var tail := CompressedBits(literals, distances, ts[1..]) + rest;
      assert s == ItemBits(literals, distances, Data(ts[0])) + tail;
      ParseItemComplete(literals, distances, Data(ts[0]), tail);
      CompressedComplete(literals, distances, ts[1..], Apply(out, ts[0]), rest);
    }
  }

  // ----- Stored blocks -----

  function TakeBytes(s: seq<Bit>, n: nat, out: seq<Byte>): (p: Parse<seq<Byte>>)
    ensures p.Done? ==> |p.rest| + 8 * n == |s| && out <= p.value
    decreases n
  {
    if n == 0 then Done(out, s)
    else
      var (b, rest) :- TakeByte(s);
      TakeBytes(rest, n - 1, out + [b])
  }

  function StoredBlock(s: seq<Bit>, out: seq<Byte>): (p: Parse<seq<Byte>>)
    ensures p.Done? ==> |p.rest| + 32 <= |s|
  {
    var (length, s1) :- TakeU16(Aligned(s));
    var (complement, s2) :- TakeU16(s1);
    if length != 0xffff - complement then Fail(StoredLengthContradicted)
    else TakeBytes(s2, length, out)
  }

  lemma {:induction false} TakeBytesSound(s: seq<Bit>, n: nat, out: seq<Byte>) returns (data: seq<Byte>)
    requires TakeBytes(s, n, out).Done?
    ensures |data| == n && s == StreamBits(data) + TakeBytes(s, n, out).rest
    ensures TakeBytes(s, n, out).value == out + data
    decreases n
  {
    if n == 0 {
      data := [];
    } else {
      LsbBitsOfValue(s[..8]);
      var p := TakeByte(s);
      assert s == LsbBits(p.value, 8) + p.rest;
      var tail := TakeBytesSound(p.rest, n - 1, out + [p.value]);
      data := [p.value] + tail;
      assert data[1..] == tail;
      assert out + data == out + [p.value] + tail;
    }
  }

  lemma {:induction false} TakeBytesComplete(data: seq<Byte>, out: seq<Byte>, rest: seq<Bit>)
    ensures TakeBytes(StreamBits(data) + rest, |data|, out) == Done(out + data, rest)
    decreases |data|
  {
    hide LsbBits, LsbValue;
    if data == [] {
      assert StreamBits(data) + rest == rest && out + data == out;
    } else {
      var s := StreamBits(data) + rest;
      ByteOfBits(data[0]);
      assert s[..8] == LsbBits(data[0], 8) && s[8..] == StreamBits(data[1..]) + rest;
      TakeBytesComplete(data[1..], out + [data[0]], rest);
      assert out + [data[0]] + data[1..] == out + data;
    }
  }

  /** `at` counts the bits before `s`; together they are whole bytes. */
  lemma StoredSound(s: seq<Bit>, out: seq<Byte>, at: nat) returns (b: Block)
    requires (at + 3 + |s|) % 8 == 0 && StoredBlock(s, out).Done?
    ensures b.Stored? && BlockValid(b, at)
    ensures s == BodyBits(b, at) + StoredBlock(s, out).rest
    ensures BlockOutput(out, b) == StoredBlock(s, out).value
  {
    hide TakeU16, TakeBytes, Take, LsbBits, StreamBits, Pow2;
    var a := Aligned(s);
    var p1 := TakeU16(a);
    TakeU16IsTake(a);
    TakeExact(a, 16, p1.value, p1.rest);
    var p2 := TakeU16(p1.rest);
    TakeU16IsTake(p1.rest);
    TakeExact(p1.rest, 16, p2.value, p2.rest);
    var data := TakeBytesSound(p2.rest, p1.value, out);
    var padding := s[..|s| % 8];
    b := Stored(padding, data);
    assert s == padding + a;
    Regroup4(padding, LsbBits(|data|, 16), LsbBits(0xffff - |data|, 16), StreamBits(data), StoredBlock(s, out).rest);
  }

  lemma StoredComplete(b: Block, at: nat, out: seq<Byte>, rest: seq<Bit>)
    requires b.Stored? && BlockValid(b, at)
    requires (at + 3 + |BodyBits(b, at)| + |rest|) % 8 == 0
    ensures StoredBlock(BodyBits(b, at) + rest, out) == Done(BlockOutput(out, b), rest)
  {
    hide TakeU16, TakeBytes, Take, LsbBits, StreamBits, Pow2;
    var n := |b.data|;
    var l, c, d := LsbBits(n, 16), LsbBits(0xffff - n, 16), StreamBits(b.data);
    var s := BodyBits(b, at) + rest;
    Regroup4(b.padding, l, c, d, rest);
    assert |s| % 8 == |b.padding|;
    assert Aligned(s) == l + (c + (d + rest));
    Pow2Of16();
    TakeU16IsTake(l + (c + (d + rest)));
    TakeExact(l + (c + (d + rest)), 16, n, c + (d + rest));
    TakeU16IsTake(c + (d + rest));
    TakeExact(c + (d + rest), 16, 0xffff - n, d + rest);
    TakeBytesComplete(b.data, out, rest);
  }

  // ----- The header of a dynamic block -----

  function TakeThrees(s: seq<Bit>, n: nat): (p: Parse<seq<Byte>>)
    ensures p.Done? ==> |p.rest| + 3 * n == |s| && |p.value| == n && forall i :: 0 <= i < n ==> p.value[i] < 8
    decreases n
  {
    if n == 0 then Done([], s)
    else
      var (first, s1) :- Take(s, 3);
      var (others, s2) :- TakeThrees(s1, n - 1);
      TakeExact(s, 3, first, s1);
      SmallPowers();
      Done([first] + others, s2)
  }

  /** Reads one symbol of the list of code lengths. */
  function ParseRun(code: seq<nat>, s: seq<Bit>, nothing: bool): (p: Parse<Run>)
    requires |code| == 19
    ensures p.Done? ==> |p.rest| < |s| && WellFormedRun(p.value) && (p.value.Again? ==> !nothing)
  {
    var (symbol, s1) :- Decode(code, s);
    SmallPowers();
    if symbol <= 15 then Done(Same(symbol), s1)
    else if symbol == 16 then
      if nothing then Fail(RepeatOfNothing)
      else
        var (extra, s2) :- Take(s1, 2);
        TakeExact(s1, 2, extra, s2);
        Done(Again(extra), s2)
    else if symbol == 17 then
      var (extra, s2) :- Take(s1, 3);
      TakeExact(s1, 3, extra, s2);
      Done(Zeros(extra), s2)
    else
      var (extra, s2) :- Take(s1, 7);
      TakeExact(s1, 7, extra, s2);
      Done(ManyZeros(extra), s2)
  }

  function ReadRuns(code: seq<nat>, total: nat, sofar: seq<Byte>, s: seq<Bit>): (p: Parse<seq<Byte>>)
    requires |code| == 19
    ensures p.Done? ==> |p.rest| <= |s| && |p.value| >= total
    decreases |s|
  {
    if |sofar| >= total then Done(sofar, s)
    else
      var (run, rest) :- ParseRun(code, s, sofar == []);
      ReadRuns(code, total, ApplyRun(sofar, run), rest)
  }

  /** Reads how many literal, distance and code-length codes a dynamic block
      declares, each beyond the least there can be. */
  function HeaderCounts(s: seq<Bit>): (p: Parse<(nat, nat, nat)>)
    ensures p.Done? ==> |p.rest| + 14 == |s| && p.value.0 < 32 && p.value.1 < 32 && p.value.2 < 16
  {
    var (moreLiterals, s1) :- Take(s, 5);
    var (moreDistances, s2) :- Take(s1, 5);
    var (moreCodes, s3) :- Take(s2, 4);
    TakeExact(s, 5, moreLiterals, s1);
    TakeExact(s1, 5, moreDistances, s2);
    TakeExact(s2, 4, moreCodes, s3);
    SmallPowers();
    Done((moreLiterals, moreDistances, moreCodes), s3)
  }

  /** Reads the two lists of code lengths a dynamic block declares. */
  function DynamicLengths(s: seq<Bit>): (p: Parse<(seq<Byte>, seq<Byte>)>)
    ensures p.Done? ==> |p.rest| + 26 <= |s|
    ensures p.Done? ==> 257 <= |p.value.0| <= 288 && 1 <= |p.value.1| <= 32
  {
    var (counts, s1) :- HeaderCounts(s);
    var (codes, s2) :- TakeThrees(s1, counts.2 + 4);
    var total := counts.0 + 257 + counts.1 + 1;
    var (lengths, s3) :- ReadRuns(Placed(codes, |codes|), total, [], s2);
    Done((lengths[..counts.0 + 257], lengths[counts.0 + 257..total]), s3)
  }

  lemma {:induction false} TakeThreesSound(s: seq<Bit>, n: nat)
    requires TakeThrees(s, n).Done?
    ensures s == ThreeBits(TakeThrees(s, n).value) + TakeThrees(s, n).rest
    decreases n
  {
    if n != 0 {
      var p := Take(s, 3);
      TakeExact(s, 3, p.value, p.rest);
      TakeThreesSound(p.rest, n - 1);
      assert TakeThrees(s, n).value[1..] == TakeThrees(p.rest, n - 1).value;
    }
  }

  lemma {:induction false} TakeThreesComplete(codes: seq<Byte>, rest: seq<Bit>)
    requires forall i :: 0 <= i < |codes| ==> codes[i] < 8
    ensures TakeThrees(ThreeBits(codes) + rest, |codes|) == Done(codes, rest)
    decreases |codes|
  {
    var s := ThreeBits(codes) + rest;
    if codes == [] {
      assert s == rest;
    } else {
      var tail := ThreeBits(codes[1..]) + rest;
      assert s == LsbBits(codes[0], 3) + tail;
      SmallPowers();
      TakeExact(s, 3, codes[0], tail);
      TakeThreesComplete(codes[1..], rest);
      assert [codes[0]] + codes[1..] == codes;
    }
  }

  lemma ParseRunSound(code: seq<nat>, s: seq<Bit>, nothing: bool)
    requires |code| == 19 && ParseRun(code, s, nothing).Done?
    ensures var p := ParseRun(code, s, nothing);
            RunEncodable(code, p.value) && s == RunBits(code, p.value) + p.rest
  {
    hide Decode, CodeOf, CodeBits, LsbBits, Take, Pow2;
    var p1 := Decode(code, s);
    DecodeIsTheCanonicalCode(code, s, p1.value, p1.rest);
    var n := if p1.value <= 15 then 0 else if p1.value == 16 then 2 else if p1.value == 17 then 3 else 7;
    var p := ParseRun(code, s, nothing);
    if n > 0 {
      var e := Take(p1.rest, n);
      TakeExact(p1.rest, n, e.value, e.rest);
    }
    assert p1.rest == RunExtraBits(p.value) + p.rest;
  }

  lemma ParseRunComplete(code: seq<nat>, run: Run, nothing: bool, rest: seq<Bit>)
    requires |code| == 19 && RunEncodable(code, run) && (run.Again? ==> !nothing)
    ensures ParseRun(code, RunBits(code, run) + rest, nothing) == Done(run, rest)
  {
    hide Decode, CodeOf, CodeBits, LsbBits, Take, Pow2;
    var extra := RunExtraBits(run);
    assert RunBits(code, run) + rest == CodeBits(code, RunSymbol(run)) + (extra + rest);
    DecodeInvertsCode(code, RunSymbol(run), extra + rest);
    SmallPowers();
    match run {
      case Same(_) => assert extra + rest == rest;
      case Again(e) => TakeExact(extra + rest, 2, e, rest);
      case Zeros(e) => TakeExact(extra + rest, 3, e, rest);
      case ManyZeros(e) => TakeExact(extra + rest, 7, e, rest);
    }
  }

  lemma {:induction false} ReadRunsSound(code: seq<nat>, total: nat, sofar: seq<Byte>, s: seq<Bit>) returns (runs: seq<Run>)
    requires |code| == 19 && ReadRuns(code, total, sofar, s).Done?
    ensures RunsReach(code, total, sofar, runs, ReadRuns(code, total, sofar, s).value)
    ensures forall i :: 0 <= i < |runs| ==> RunEncodable(code, runs[i])
    ensures s == RunsBits(code, runs) + ReadRuns(code, total, sofar, s).rest
    decreases |s|
  {
    hide ParseRun, RunEncodable, RunBits, ApplyRun;
    if |sofar| >= total {
      runs := [];
    } else {
      ParseRunSound(code, s, sofar == []);
      var p := ParseRun(code, s, sofar == []);
      var tail := ReadRunsSound(code, total, ApplyRun(sofar, p.value), p.rest);
      runs := [p.value] + tail;
      assert runs[1..] == tail;
      assert forall i :: 0 < i < |runs| ==> runs[i] == tail[i - 1];
    }
  }

  lemma {:induction false} ReadRunsComplete(code: seq<nat>, total: nat, sofar: seq<Byte>, runs: seq<Run>, lengths: seq<Byte>, rest: seq<Bit>)
    requires |code| == 19 && RunsReach(code, total, sofar, runs, lengths)
    requires forall i :: 0 <= i < |runs| ==> RunEncodable(code, runs[i])
    ensures ReadRuns(code, total, sofar, RunsBits(code, runs) + rest) == Done(lengths, rest)
    decreases |runs|
  {
    hide ParseRun, RunEncodable, RunBits, ApplyRun;
    var s := RunsBits(code, runs) + rest;
    if |sofar| >= total {
      assert s == rest;
    } else {
      var tail := RunsBits(code, runs[1..]) + rest;
      assert s == RunBits(code, runs[0]) + tail;
      ParseRunComplete(code, runs[0], sofar == [], tail);
      ReadRunsComplete(code, total, ApplyRun(sofar, runs[0]), runs[1..], lengths, rest);
    }
  }

  lemma DynamicSound(s: seq<Bit>) returns (h: Header)
    requires DynamicLengths(s).Done?
    ensures h.Valid() && s == h.Bits() + DynamicLengths(s).rest
    ensures DynamicLengths(s).value == (h.Literals(), h.Distances())
  {
    hide Take, TakeThrees, ReadRuns, LsbBits, ThreeBits, RunsBits, RunsReach, Placed, Pow2;
    var p1 := Take(s, 5);
    TakeExact(s, 5, p1.value, p1.rest);
    var p2 := Take(p1.rest, 5);
    TakeExact(p1.rest, 5, p2.value, p2.rest);
    var p3 := Take(p2.rest, 4);
    TakeExact(p2.rest, 4, p3.value, p3.rest);
    SmallPowers();
    TakeThreesSound(p3.rest, p3.value + 4);
    var p4 := TakeThrees(p3.rest, p3.value + 4);
    var code, total := Placed(p4.value, |p4.value|), p1.value + 257 + p2.value + 1;
    var runs := ReadRunsSound(code, total, [], p4.rest);
    var p5 := ReadRuns(code, total, [], p4.rest);
    h := Header(p1.value, p2.value, p4.value, runs, p5.value);
    Regroup5(LsbBits(h.moreLiterals, 5), LsbBits(h.moreDistances, 5), LsbBits(|h.codes| - 4, 4),
             ThreeBits(h.codes), RunsBits(code, runs), p5.rest);
  }

  lemma DynamicComplete(h: Header, rest: seq<Bit>)
    requires h.Valid()
    ensures DynamicLengths(h.Bits() + rest) == Done((h.Literals(), h.Distances()), rest)
  {
    hide Take, TakeThrees, ReadRuns, LsbBits, ThreeBits, RunsBits, RunsReach, Placed, Pow2;
    var code := Placed(h.codes, |h.codes|);
    RunsReachEncodable(code, h.Total(), [], h.runs, h.lengths);
    var a, b, c, d, e := LsbBits(h.moreLiterals, 5), LsbBits(h.moreDistances, 5), LsbBits(|h.codes| - 4, 4),
      ThreeBits(h.codes), RunsBits(code, h.runs);
    SmallPowers();
    Regroup5(a, b, c, d, e, rest);
    TakeExact(h.Bits() + rest, 5, h.moreLiterals, b + (c + (d + (e + rest))));
    TakeExact(b + (c + (d + (e + rest))), 5, h.moreDistances, c + (d + (e + rest)));
    TakeExact(c + (d + (e + rest)), 4, |h.codes| - 4, d + (e + rest));
    TakeThreesComplete(h.codes, e + rest);
    ReadRunsComplete(code, h.Total(), [], h.runs, h.lengths, rest);
  }

  // ----- Whole streams -----

  /** Decodes the body of one block, of the type the two header bits named. */
  function BlockBody(kind: nat, s: seq<Bit>, out: seq<Byte>): (p: Parse<seq<Byte>>)
    ensures p.Done? ==> |p.rest| < |s|
  {
    if kind == 0 then StoredBlock(s, out)
    else if kind == 1 then Compressed(FixedLiterals(), FixedDistances(), s, out)
    else if kind == 2 then
      var (lengths, rest) :- DynamicLengths(s);
      Compressed(lengths.0, lengths.1, rest, out)
    else Fail(NoSuchBlockType)
  }

  /** Decodes blocks onto the end of `out` until one flagged as the last. */
  function Blocks(s: seq<Bit>, out: seq<Byte>): (p: Parse<seq<Byte>>)
    decreases |s|
  {
    var (last, s1) :- Take(s, 1);
    var (kind, s2) :- Take(s1, 2);
    var (sofar, rest) :- BlockBody(kind, s2, out);
    if last == 1 then Done(sofar, rest) else Blocks(rest, sofar)
  }

  lemma BodySound(kind: nat, s: seq<Bit>, out: seq<Byte>, at: nat) returns (b: Block)
    requires (at + 3 + |s|) % 8 == 0 && BlockBody(kind, s, out).Done?
    ensures kind == TypeOf(b) && BlockValid(b, at) && BlockFollows(out, b)
    ensures s == BodyBits(b, at) + BlockBody(kind, s, out).rest
    ensures BlockOutput(out, b) == BlockBody(kind, s, out).value
  {
    if kind == 0 {
      b := StoredSound(s, out, at);
    } else if kind == 1 {
      var ts := CompressedSound(FixedLiterals(), FixedDistances(), s, out);
      b := Fixed(ts);
    } else {
      var h := DynamicSound(s);
      var p := DynamicLengths(s);
      var ts := CompressedSound(h.Literals(), h.Distances(), p.rest, out);
      b := Dynamic(h, ts);
      Regroup2(h.Bits(), CompressedBits(h.Literals(), h.Distances(), ts), BlockBody(kind, s, out).rest);
    }
  }

  lemma BodyComplete(b: Block, at: nat, out: seq<Byte>, rest: seq<Bit>)
    requires BlockValid(b, at) && BlockFollows(out, b)
    requires (at + 3 + |BodyBits(b, at)| + |rest|) % 8 == 0
    ensures BlockBody(TypeOf(b), BodyBits(b, at) + rest, out) == Done(BlockOutput(out, b), rest)
  {
    match b {
      case Stored(_, _) => StoredComplete(b, at, out, rest);
      case Fixed(ts) => CompressedComplete(FixedLiterals(), FixedDistances(), ts, out, rest);
      case Dynamic(h, ts) =>
        var bits := CompressedBits(h.Literals(), h.Distances(), ts);
        Regroup2(h.Bits(), bits, rest);
        DynamicComplete(h, bits + rest);
        CompressedComplete(h.Literals(), h.Distances(), ts, out, rest);
    }
  }

  lemma {:induction false} BlocksSound(s: seq<Bit>, out: seq<Byte>, at: nat) returns (blocks: seq<Block>)
    requires (at + |s|) % 8 == 0 && Blocks(s, out).Done?
    ensures Encodes(blocks, at, s, out, Blocks(s, out).value, Blocks(s, out).rest)
    decreases |s|
  {
    hide Take, BlockBody, BodyBits, BlockValid, BlockFollows, BlockOutput, LsbBits, Pow2;
    var p1 := Take(s, 1);
    TakeExact(s, 1, p1.value, p1.rest);
    SmallPowers();
    var p2 := Take(p1.rest, 2);
    TakeExact(p1.rest, 2, p2.value, p2.rest);
    var b := BodySound(p2.value, p2.rest, out, at);
    var p3 := BlockBody(p2.value, p2.rest, out);
    var bits := BlockBits(b, at, p1.value == 1);
    Regroup3(LsbBits(p1.value, 1), LsbBits(p2.value, 2), BodyBits(b, at), p3.rest);
    if p1.value == 1 {
      blocks := [b];
      assert blocks[1..] == [];
      assert StreamValid(blocks, at) && s == BlocksBits(blocks, at) + p3.rest;
      assert StreamFollows(p3.value, blocks[1..]) && StreamFollows(out, blocks);
      assert StreamOutput(out, blocks) == p3.value;
    } else {
      var tail := BlocksSound(p3.rest, p3.value, at + |bits|);
      blocks := [b] + tail;
      assert blocks[1..] == tail;
      assert StreamValid(blocks, at) && StreamFollows(out, blocks);
      Regroup2(bits, BlocksBits(tail, at + |bits|), Blocks(s, out).rest);
    }
  }

  /** What follows the first block. */
  ghost function AfterFirst(blocks: seq<Block>, at: nat, rest: seq<Bit>): (after: seq<Bit>)
    requires StreamValid(blocks, at)
    ensures BlocksBits(blocks, at) + rest == BlockBits(blocks[0], at, |blocks| == 1) + after
  {
    if |blocks| == 1 then rest
    else
      Regroup2(BlockBits(blocks[0], at, false), BlocksBits(blocks[1..], After(blocks[0], at)), rest);
      BlocksBits(blocks[1..], After(blocks[0], at)) + rest
  }

  lemma {:induction false} BlocksComplete(blocks: seq<Block>, at: nat, s: seq<Bit>, out: seq<Byte>, data: seq<Byte>, rest: seq<Bit>)
    requires (at + |s|) % 8 == 0 && Encodes(blocks, at, s, out, data, rest)
    ensures Blocks(s, out) == Done(data, rest)
    decreases |blocks|
  {
    hide Take, BlockBody, BodyBits, BlockValid, BlockFollows, BlockOutput, LsbBits, Pow2;
    var b, last := blocks[0], |blocks| == 1;
    var flag := if last then 1 else 0;
    var after := AfterFirst(blocks, at, rest);
    var body := BodyBits(b, at) + after;
    Regroup3(LsbBits(flag, 1), LsbBits(TypeOf(b), 2), BodyBits(b, at), after);
    SmallPowers();
    TakeExact(s, 1, flag, LsbBits(TypeOf(b), 2) + body);
    TakeExact(LsbBits(TypeOf(b), 2) + body, 2, TypeOf(b), body);
    BodyComplete(b, at, out, after);
    if !last {
      BlocksComplete(blocks[1..], After(b, at), after, BlockOutput(out, b), data, rest);
    } else {
      assert blocks[1..] == [];
    }
  }

  /** The decoder as a function of a whole stream; what follows the last block
      is not looked at. */
  function Inflate(s: seq<Bit>): (r: Result<seq<Byte>, Fault>) {
    match Blocks(s, [])
    case Done(data, _) => Ok(data)
    case Fail(fault) => Err(fault)
  }

  ghost predicate IsDeflateOf(blocks: seq<Block>, s: seq<Bit>, data: seq<Byte>, rest: seq<Bit>) {
    Encodes(blocks, 0, s, [], data, rest)
  }

  /** What is decoded is exactly what the grammar defines: a stream of whole
      bytes inflates to `data` if and only if it begins with blocks that stand
      for `data`. */
  lemma InflateIsTheFormat(s: seq<Bit>, data: seq<Byte>)
    requires |s| % 8 == 0
    ensures Inflate(s) == Ok(data) <==> exists blocks, rest :: IsDeflateOf(blocks, s, data, rest)
  {
    hide Blocks, Encodes;
    if Inflate(s) == Ok(data) {
      var blocks := BlocksSound(s, [], 0);
      assert IsDeflateOf(blocks, s, data, Blocks(s, []).rest);
    }
    forall blocks, rest | IsDeflateOf(blocks, s, data, rest)
      ensures Inflate(s) == Ok(data)
    {
      BlocksComplete(blocks, 0, s, [], data, rest);
    }
  }

  /** A stream that is accepted is accepted with anything after it, and gives
      the same bytes. */
  lemma InflateIsPrefixStable(s: seq<Bit>, more: seq<Bit>)
    requires |s| % 8 == 0 && |more| % 8 == 0 && Inflate(s).Ok?
    ensures Inflate(s + more) == Inflate(s)
  {
    hide Blocks, StreamValid, BlocksBits, StreamFollows, StreamOutput;
    var blocks := BlocksSound(s, [], 0);
    var p := Blocks(s, []);
    assert s + more == BlocksBits(blocks, 0) + (p.rest + more);
    BlocksComplete(blocks, 0, s + more, [], p.value, p.rest + more);
  }

  /** The shortest block, an empty fixed one, is ten bits. */
  lemma NothingShortIsAccepted(s: seq<Bit>)
    requires Inflate(s).Ok?
    ensures |s| >= 10
  {
    var p1 := Take(s, 1);
    var p2 := Take(p1.rest, 2);
    if p2.value == 1 {
      FixedSymbolsAreLong(p2.rest);
    }
  }

  lemma FixedSymbolsAreLong(s: seq<Bit>)
    requires Decode(FixedLiterals(), s).Done?
    ensures |Decode(FixedLiterals(), s).rest| + 7 <= |s|
  {
    var p := Decode(FixedLiterals(), s);
    DecodeIsTheCanonicalCode(FixedLiterals(), s, p.value, p.rest);
  }
}
