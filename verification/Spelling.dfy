/** Reading a stream whose bits are written as one number, the first bit lowest:
    what each kind of read gives is the remainder and the quotient by a power of
    two, and a Huffman code is the remainder's bits the other way round. This is
    how the streams of known content are decoded, one lemma for a field. */
module Spelling {
  import opened Bits
  import opened BitStreams
  import opened DeflateFormat
  import opened Huffman
  import opened InflateSpec
  import opened Wrappers

  /** The number whose first `n` bits are those of `a` and whose others are those of `y`. */
  function Then(a: nat, n: nat, y: nat): nat {
    a + Pow2(n) * y
  }

  lemma ThenHalf(a: nat, n: nat, y: nat)
    requires n > 0
    ensures Then(a, n, y) / 2 == Then(a / 2, n - 1, y) && Then(a, n, y) % 2 == a % 2
    ensures a < Pow2(n) ==> a / 2 < Pow2(n - 1)
  {
    var q := Pow2(n - 1) * y;
    TwiceProduct(Pow2(n - 1), y);
    assert Then(a, n, y) == a + 2 * q;
  }

  lemma {:induction false} Front(a: nat, n: nat, y: nat, m: nat)
    requires a < Pow2(n)
    ensures LsbBits(Then(a, n, y), n + m) == LsbBits(a, n) + LsbBits(y, m)
    decreases n
  {
    if n == 0 {
      assert Then(a, 0, y) == y;
    } else {
      ThenHalf(a, n, y);
      hide Then, Pow2;
      var others := LsbBits(a / 2, n - 1);
      Front(a / 2, n - 1, y, m);
      assert LsbBits(a, n) == [a % 2] + others;
      assert LsbBits(Then(a, n, y), n + m) == [a % 2] + LsbBits(Then(a / 2, n - 1, y), n - 1 + m);
      hide LsbBits;
      Regroup2([a % 2], others, LsbBits(y, m));
    }
  }

  /** The low `n` bits of `x`, the first of them highest, after those gathered already. */
  function Gathered(x: nat, n: nat, sofar: nat): nat
    decreases n
  {
    if n == 0 then sofar else Gathered(x / 2, n - 1, 2 * sofar + x % 2)
  }

  lemma {:induction false} GatheredIs(x: nat, n: nat, s: seq<Bit>)
    ensures MsbValue(s + LsbBits(x, n)) == Gathered(x, n, MsbValue(s))
    decreases n
  {
    if n == 0 {
      assert s + LsbBits(x, n) == s;
    } else {
      var t := s + [x % 2];
      var others := LsbBits(x / 2, n - 1);
      assert MsbValue(t) == 2 * MsbValue(s) + x % 2 by { assert t[..|t| - 1] == s; }
      assert LsbBits(x, n) == [x % 2] + others;
      hide MsbValue, LsbBits;
      GatheredIs(x / 2, n - 1, t);
      Regroup2(s, [x % 2], others);
    }
  }

  /** Four bits the other way round. */
  function Nibble(a: nat): nat {
    8 * (a % 2) + 4 * (a / 2 % 2) + 2 * (a / 4 % 2) + a / 8 % 2
  }

  lemma GatherFour(a: nat, n: nat, sofar: nat)
    requires n >= 4
    ensures Gathered(a, n, sofar) == Gathered(a / 16, n - 4, 16 * sofar + Nibble(a))
  {
    var first := 2 * sofar + a % 2;
    assert Gathered(a, n, sofar) == Gathered(a / 2, n - 1, first);
    assert Gathered(a / 2, n - 1, first) == Gathered(a / 4, n - 2, 2 * first + a / 2 % 2);
    assert Gathered(a / 4, n - 2, 2 * first + a / 2 % 2) == Gathered(a / 8, n - 3, 4 * first + 2 * (a / 2 % 2) + a / 4 % 2);
  }

  lemma EightBits(a: nat)
    ensures Gathered(a, 8, 0) == 16 * Nibble(a) + Nibble(a / 16)
  {
    hide Nibble;
    GatherFour(a, 8, 0);
    GatherFour(a / 16, 4, Nibble(a));
  }

  lemma {:induction false} NoBits(n: nat)
    ensures Gathered(0, n, 0) == 0
  {
    if n > 0 {
      NoBits(n - 1);
    }
  }

  // ----- Reading a field -----

  lemma TakeAt(a: nat, n: nat, y: nat, m: nat)
    requires a < Pow2(n)
    ensures Take(LsbBits(Then(a, n, y), n + m), n) == Done(a, LsbBits(y, m))
  {
    hide Take, LsbBits, Then;
    Front(a, n, y, m);
    TakeExact(LsbBits(a, n) + LsbBits(y, m), n, a, LsbBits(y, m));
  }

  /** A symbol with its code and how long the code is. */
  predicate IsCode(lengths: seq<nat>, symbol: nat, v: nat, n: nat) {
    HasCode(lengths, symbol) && lengths[symbol] == n && CodeOf(lengths, symbol) == v
  }

  lemma DecodeAt(lengths: seq<nat>, symbol: nat, a: nat, n: nat, y: nat, m: nat)
    requires a < Pow2(n) && IsCode(lengths, symbol, Gathered(a, n, 0), n)
    ensures Decode(lengths, LsbBits(Then(a, n, y), n + m)) == Done(symbol, LsbBits(y, m))
  {
    hide Decode, LsbBits, MsbBits, CodeOf, Gathered, Then, Pow2;
    Front(a, n, y, m);
    GatheredIs(a, n, []);
    assert [] + LsbBits(a, n) == LsbBits(a, n);
    MsbBitsOfValue(LsbBits(a, n));
    DecodeInvertsCode(lengths, symbol, LsbBits(y, m));
  }

  // ----- Reading compressed data -----

  lemma LiteralAt(
    literals: seq<nat>, distances: seq<nat>, b: Byte, a: nat, n: nat, y: nat, m: nat, out: seq<Byte>)
    requires a < Pow2(n) && IsCode(literals, b, Gathered(a, n, 0), n)
    ensures Compressed(literals, distances, LsbBits(Then(a, n, y), n + m), out)
         == Compressed(literals, distances, LsbBits(y, m), out + [b])
  {
    hide Decode, LsbBits, IsCode, Gathered, Then, Pow2;
    DecodeAt(literals, b, a, n, y, m);
    AppliesLiteral(out, b);
  }

  lemma EndAt(literals: seq<nat>, distances: seq<nat>, a: nat, n: nat, y: nat, m: nat, out: seq<Byte>)
    requires a < Pow2(n) && IsCode(literals, 256, Gathered(a, n, 0), n)
    ensures Compressed(literals, distances, LsbBits(Then(a, n, y), n + m), out) == Done(out, LsbBits(y, m))
  {
    hide Decode, LsbBits, IsCode, Gathered, Then, Pow2;
    DecodeAt(literals, 256, a, n, y, m);
  }

  /** A match, spelled with a length code `a` of `n` bits and a distance code `c` of `k` bits. */
  function MatchThen(t: Token, a: nat, n: nat, c: nat, k: nat, y: nat): nat
    requires t.Match? && WellFormed(t)
  {
    Then(a, n, Then(t.lengthExtra, LengthExtra(t.lengthCode),
         Then(c, k, Then(t.distanceExtra, DistanceExtra(t.distanceCode), y))))
  }

  lemma MatchAt(
    literals: seq<nat>, distances: seq<nat>, t: Token, a: nat, n: nat, c: nat, k: nat, y: nat, m: nat, out: seq<Byte>)
    requires t.Match? && WellFormed(t) && Applies(out, t) && a < Pow2(n) && c < Pow2(k)
    requires IsCode(literals, 257 + t.lengthCode, Gathered(a, n, 0), n)
    requires IsCode(distances, t.distanceCode, Gathered(c, k, 0), k)
    ensures Compressed(literals, distances,
                       LsbBits(MatchThen(t, a, n, c, k, y),
                               n + (LengthExtra(t.lengthCode) + (k + (DistanceExtra(t.distanceCode) + m)))), out)
         == Compressed(literals, distances, LsbBits(y, m), Apply(out, t))
  {
    hide Decode, LsbBits, IsCode, Gathered, Take, Then, Apply, Applies, LengthBase, DistanceBase, LengthExtra, DistanceExtra, Pow2;
    var left3 := DistanceExtra(t.distanceCode) + m;
    var y3 := Then(t.distanceExtra, DistanceExtra(t.distanceCode), y);
    var left2, y2 := k + left3, Then(c, k, y3);
    var left1, y1 := LengthExtra(t.lengthCode) + left2, Then(t.lengthExtra, LengthExtra(t.lengthCode), y2);
    DecodeAt(literals, 257 + t.lengthCode, a, n, y1, left1);
    TakeAt(t.lengthExtra, LengthExtra(t.lengthCode), y2, left2);
    DecodeAt(distances, t.distanceCode, c, k, y3, left3);
    TakeAt(t.distanceExtra, DistanceExtra(t.distanceCode), y, m);
  }

  // ----- Reading the header of a dynamic block -----

  /** Code lengths of three bits each, the first of them lowest, and then `more`. */
  function Octal(codes: seq<Byte>, k: nat, more: nat): nat
    requires k <= |codes|
    decreases |codes| - k
  {
    if k == |codes| then more else codes[k] + 8 * Octal(codes, k + 1, more)
  }

  lemma {:induction false} ThreesAt(codes: seq<Byte>, k: nat, more: nat, m: nat)
    requires k <= |codes| && forall i :: 0 <= i < |codes| ==> codes[i] < 8
    ensures TakeThrees(LsbBits(Octal(codes, k, more), 3 * (|codes| - k) + m), |codes| - k)
         == Done(codes[k..], LsbBits(more, m))
    decreases |codes| - k
  {
    hide Take, LsbBits;
    if k < |codes| {
      SmallPowers();
      TakeAt(codes[k], 3, Octal(codes, k + 1, more), 3 * (|codes| - k - 1) + m);
      ThreesAt(codes, k + 1, more, m);
      assert codes[k..] == [codes[k]] + codes[k + 1..];
    }
  }

  lemma CountsAt(a: nat, b: nat, c: nat, y: nat, m: nat)
    requires a < 32 && b < 32 && c < 16
    ensures HeaderCounts(LsbBits(a + 32 * b + 0x400 * c + 0x4000 * y, 14 + m)) == Done((a, b, c), LsbBits(y, m))
  {
    hide LsbBits, Take, Pow2;
    SmallPowers();
    TakeAt(a, 5, b + 32 * c + 0x200 * y, 9 + m);
    TakeAt(b, 5, c + 16 * y, 4 + m);
    TakeAt(c, 4, y, m);
  }

  /** The counts, the code-length code and the runs of a header, read in turn. */
  lemma HeaderAt(a: nat, b: nat, codes: seq<Byte>, y: nat, m: nat, lengths: seq<Byte>, rest: seq<Bit>)
    requires a < 32 && b < 32 && 4 <= |codes| <= 19 && forall i :: 0 <= i < |codes| ==> codes[i] < 8
    requires ReadRuns(Placed(codes, |codes|), a + 257 + b + 1, [], LsbBits(y, m)) == Done(lengths, rest)
    ensures DynamicLengths(LsbBits(a + 32 * b + 0x400 * (|codes| - 4) + 0x4000 * Octal(codes, 0, y),
                                   14 + (3 * |codes| + m)))
         == Done((lengths[..a + 257], lengths[a + 257..a + 257 + b + 1]), rest)
  {
    hide LsbBits, HeaderCounts, TakeThrees, Placed, ReadRuns, Octal;
    CountsAt(a, b, |codes| - 4, Octal(codes, 0, y), 3 * |codes| + m);
    ThreesAt(codes, 0, y, m);
    assert codes[0..] == codes;
  }

  lemma SameAt(code: seq<nat>, total: nat, sofar: seq<Byte>, symbol: nat, a: nat, n: nat, y: nat, m: nat)
    requires |code| == 19 && |sofar| < total && symbol <= 15
    requires a < Pow2(n) && IsCode(code, symbol, Gathered(a, n, 0), n)
    ensures ReadRuns(code, total, sofar, LsbBits(Then(a, n, y), n + m))
         == ReadRuns(code, total, sofar + [symbol], LsbBits(y, m))
  {
    hide Decode, LsbBits, IsCode, Gathered, Then, Pow2;
    DecodeAt(code, symbol, a, n, y, m);
  }

  function RunWidth(run: Run): nat {
    if run.Same? then 0 else if run.Again? then 2 else if run.Zeros? then 3 else 7
  }

  /** A run whose length is not written out: its code and its extra bits. */
  lemma RunAt(code: seq<nat>, total: nat, sofar: seq<Byte>, run: Run, a: nat, n: nat, y: nat, m: nat)
    requires |code| == 19 && |sofar| < total && RunApplies(sofar, run) && !run.Same?
    requires a < Pow2(n) && IsCode(code, RunSymbol(run), Gathered(a, n, 0), n)
    ensures ReadRuns(code, total, sofar, LsbBits(Then(a, n, Then(run.extra, RunWidth(run), y)), n + (RunWidth(run) + m)))
         == ReadRuns(code, total, ApplyRun(sofar, run), LsbBits(y, m))
  {
    hide Decode, LsbBits, IsCode, Gathered, Take, Then, Pow2;
    SmallPowers();
    DecodeAt(code, RunSymbol(run), a, n, Then(run.extra, RunWidth(run), y), RunWidth(run) + m);
    TakeAt(run.extra, RunWidth(run), y, m);
  }

  // ----- Reading a stored block -----

  lemma TakeByteAt(b: Byte, y: nat, m: nat)
    ensures TakeByte(LsbBits(b + 256 * y, 8 + m)) == Done(b, LsbBits(y, m))
  {
    hide LsbBits, LsbValue, Pow2;
    Pow2Of8();
    TakeAt(b, 8, y, m);
  }

  lemma TakeU16At(low: Byte, high: Byte, y: nat, m: nat)
    ensures TakeU16(LsbBits(low + 256 * (high + 256 * y), 16 + m)) == Done(low + 256 * high, LsbBits(y, m))
  {
    hide TakeByte, LsbBits;
    TakeByteAt(low, high + 256 * y, 8 + m);
    TakeByteAt(high, y, m);
  }

  /** A stored block after the three bits that name it: the rest of the first byte, which
      means nothing, the length, its complement, and one byte. */
  lemma StoredByteAt(padding: nat, b: Byte)
    requires padding < 32
    ensures StoredBlock(LsbBits(padding + 32 * (1 + 0x1_0000 * (0xfffe + 0x1_0000 * b)), 45), []) == Done([b], [])
  {
    var y := 1 + 0x1_0000 * (0xfffe + 0x1_0000 * b);
    SmallPowers();
    hide LsbBits, TakeU16, TakeByte, Pow2;
    Front(padding, 5, y, 40);
    assert Aligned(LsbBits(padding + 32 * y, 45)) == LsbBits(y, 40);
    TakeU16At(1, 0, 0xfffe + 0x1_0000 * b, 24);
    TakeU16At(0xfe, 0xff, b, 8);
    TakeByteAt(b, 0, 0);
    assert LsbBits(0, 0) == [];
    assert [] + [b] == [b];
  }

  // ----- A stream of whole bytes -----

  /** The bytes from place `k` on and then `more` as one number, the first of them lowest. */
  function NumberFrom(bytes: seq<Byte>, k: nat, more: nat): nat
    requires k <= |bytes|
    decreases |bytes| - k
  {
    if k == |bytes| then more else bytes[k] + 256 * NumberFrom(bytes, k + 1, more)
  }

  lemma {:induction false} NumberFromIs(bytes: seq<Byte>, k: nat, more: nat, m: nat)
    requires k <= |bytes|
    ensures StreamBits(bytes[k..]) + LsbBits(more, m) == LsbBits(NumberFrom(bytes, k, more), 8 * (|bytes| - k) + m)
    decreases |bytes| - k
  {
    if k < |bytes| {
      NumberFromIs(bytes, k + 1, more, m);
      assert bytes[k..][1..] == bytes[k + 1..];
      hide LsbBits, Pow2;
      Pow2Of8();
      Front(bytes[k], 8, NumberFrom(bytes, k + 1, more), 8 * (|bytes| - k - 1) + m);
      Regroup2(LsbBits(bytes[k], 8), StreamBits(bytes[k + 1..]), LsbBits(more, m));
    }
  }

  lemma WholeStream(bytes: seq<Byte>)
    ensures StreamBits(bytes) == LsbBits(NumberFrom(bytes, 0, 0), 8 * |bytes|)
  {
    NumberFromIs(bytes, 0, 0, 0);
    assert bytes[0..] == bytes && StreamBits(bytes) + LsbBits(0, 0) == StreamBits(bytes);
  }

  /** A stream given in two pieces. */
  lemma JoinedStream(a: seq<Byte>, b: seq<Byte>)
    ensures StreamBits(a + b) == LsbBits(NumberFrom(a, 0, NumberFrom(b, 0, 0)), 8 * |a| + 8 * |b|)
  {
    hide *;
    StreamBitsConcat(a, b);
    WholeStream(b);
    NumberFromIs(a, 0, NumberFrom(b, 0, 0), 8 * |b|);
    assert a[0..] == a;
  }

  /** The first three bits of a last block, and its body. */
  lemma LastBlock(kind: nat, y: nat, m: nat, data: seq<Byte>, rest: seq<Bit>)
    requires kind < 4 && BlockBody(kind, LsbBits(y, m), []) == Done(data, rest)
    ensures Inflate(LsbBits(1 + 2 * kind + 8 * y, 3 + m)) == Ok(data)
  {
    hide Take, LsbBits, BlockBody, Pow2;
    SmallPowers();
    TakeAt(1, 1, kind + 4 * y, 2 + m);
    TakeAt(kind, 2, y, m);
  }
}
