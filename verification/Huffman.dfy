/** Canonical Huffman codes (section 3.2.2 of RFC 1951) and the decoding table
    built from a list of code lengths. */
module Huffman {
  import opened Bits
  import opened BitStreams
  import opened Wrappers

  const MAX_LENGTH := 15

  // ----- The canonical code, as the standard defines it -----

  /** How many of the first `n` symbols have code length `l`. */
  function CountUpTo(lengths: seq<nat>, n: nat, l: nat): (c: nat)
    requires n <= |lengths|
    ensures c <= n
  {
    if n == 0 then 0
    else CountUpTo(lengths, n - 1, l) + if lengths[n - 1] == l then 1 else 0
  }

  /** How many codes there are of a length; length zero means no code at all. */
  function Count(lengths: seq<nat>, l: nat): nat {
    if l == 0 then 0 else CountUpTo(lengths, |lengths|, l)
  }

  /** The first code of a length. */
  function First(lengths: seq<nat>, l: nat): nat {
    if l == 0 then 0 else 2 * (First(lengths, l - 1) + Count(lengths, l - 1))
  }

  /** How many earlier symbols share a symbol's code length. */
  function Rank(lengths: seq<nat>, symbol: nat): nat
    requires symbol < |lengths|
  {
    CountUpTo(lengths, symbol, lengths[symbol])
  }

  /** The code the standard assigns to a symbol. */
  function CodeOf(lengths: seq<nat>, symbol: nat): nat
    requires symbol < |lengths|
  {
    First(lengths, lengths[symbol]) + Rank(lengths, symbol)
  }

  predicate Coded(lengths: seq<nat>, symbol: nat) {
    symbol < |lengths| && 1 <= lengths[symbol] <= MAX_LENGTH
  }

  /** The symbol has a code, and the code fits the bits it was given. */
  predicate HasCode(lengths: seq<nat>, symbol: nat) {
    Coded(lengths, symbol) && CodeOf(lengths, symbol) < Pow2(lengths[symbol])
  }

  /** A symbol's code as it stands in a stream, most significant bit first. */
  function CodeBits(lengths: seq<nat>, symbol: nat): (w: seq<Bit>)
    requires symbol < |lengths|
    ensures |w| == lengths[symbol]
  {
    MsbBits(CodeOf(lengths, symbol), lengths[symbol])
  }

  // ----- Reading a symbol -----

  lemma {:induction false} CountUpToMonotone(lengths: seq<nat>, m: nat, n: nat, l: nat)
    requires m <= n <= |lengths|
    ensures CountUpTo(lengths, m, l) <= CountUpTo(lengths, n, l)
    decreases n - m
  {
    if m < n {
      CountUpToMonotone(lengths, m, n - 1, l);
    }
  }

  lemma RankBound(lengths: seq<nat>, symbol: nat)
    requires Coded(lengths, symbol)
    ensures Rank(lengths, symbol) < Count(lengths, lengths[symbol])
  {
    CountUpToMonotone(lengths, symbol + 1, |lengths|, lengths[symbol]);
  }

  /** The symbol of length `l` and rank `k` among the first `n`. */
  function Find(lengths: seq<nat>, n: nat, l: nat, k: nat): (symbol: nat)
    requires n <= |lengths| && k < CountUpTo(lengths, n, l)
    ensures symbol < n && lengths[symbol] == l && CountUpTo(lengths, symbol, l) == k
  {
    if lengths[n - 1] == l && CountUpTo(lengths, n - 1, l) == k then n - 1
    else Find(lengths, n - 1, l, k)
  }

  function SymbolAt(lengths: seq<nat>, l: nat, k: nat): (symbol: nat)
    requires 1 <= l <= MAX_LENGTH && k < Count(lengths, l)
    ensures Coded(lengths, symbol) && lengths[symbol] == l && Rank(lengths, symbol) == k
  {
    Find(lengths, |lengths|, l, k)
  }

  lemma {:induction false} RankDistinguishes(lengths: seq<nat>, a: nat, b: nat)
    requires a < |lengths| && b < |lengths|
    requires lengths[a] == lengths[b] && Rank(lengths, a) == Rank(lengths, b)
    ensures a == b
  {
    if a < b {
      CountUpToMonotone(lengths, a + 1, b, lengths[a]);
    } else if b < a {
      CountUpToMonotone(lengths, b + 1, a, lengths[a]);
    }
  }

  lemma MsbValueNext(s: seq<Bit>, l: nat)
    requires l < |s|
    ensures MsbValue(s[..l + 1]) == 2 * MsbValue(s[..l]) + s[l]
  {
    assert s[..l + 1][..l] == s[..l];
  }

  /** No code of length below `l` matches the bits. */
  ghost predicate Unmatched(lengths: seq<nat>, s: seq<Bit>, l: nat) {
    l == 1 || (2 <= l <= |s| + 1 &&
    MsbValue(s[..l - 1]) >= First(lengths, l - 1) + Count(lengths, l - 1))
  }

  /** The canonical decode from length `l` up. The code read so far is never
      below the first code of its length, so its rank is a natural number. */
  function DecodeFrom(lengths: seq<nat>, s: seq<Bit>, l: nat): (p: Parse<nat>)
    requires 1 <= l <= MAX_LENGTH + 1
    requires Unmatched(lengths, s, l)
    ensures p.Done? ==> |p.rest| < |s| && p.value < |lengths|
    decreases MAX_LENGTH + 1 - l
  {
    if l > MAX_LENGTH then Fail(CodeTooLong)
    else if |s| < l then Fail(EndsInsideCode)
    else
      MsbValueNext(s, l - 1);
      var code := MsbValue(s[..l]);
      assert l == 1 ==> First(lengths, l) == 0;
      assert code >= First(lengths, l);
      var rank := code - First(lengths, l);
      if rank < Count(lengths, l) then Done(SymbolAt(lengths, l, rank), s[l..])
      else DecodeFrom(lengths, s, l + 1)
  }

  /** Reads one symbol. */
  function Decode(lengths: seq<nat>, s: seq<Bit>): (p: Parse<nat>)
    ensures p.Done? ==> |p.rest| < |s| && p.value < |lengths|
  {
    DecodeFrom(lengths, s, 1)
  }

  /** A code of one length lies past every code of the shorter lengths. */
  lemma {:induction false} ShorterCodesLieBelow(lengths: seq<nat>, k: nat, l: nat)
    requires k < l
    ensures First(lengths, l) >= (First(lengths, k) + Count(lengths, k)) * Pow2(l - k)
    decreases l - k
  {
    hide Count;
    var used := First(lengths, k) + Count(lengths, k);
    if k + 1 == l {
      assert Pow2(1) == 2 * Pow2(0);
    } else {
      ShorterCodesLieBelow(lengths, k, l - 1);
      TwiceProduct(Pow2(l - 1 - k), used);
    }
  }

  lemma QuotientAtLeast(v: nat, d: nat, q: nat)
    requires d > 0 && v >= q * d
    ensures v / d >= q
  {
    var found := v / d;
    assert v == d * found + v % d;
    if found < q {
      MulAtLeast(d, q - found);
    }
  }

  /** No proper prefix of a code is taken for a shorter code. */
  lemma PrefixUnmatched(lengths: seq<nat>, symbol: nat, s: seq<Bit>, l: nat)
    requires HasCode(lengths, symbol) && CodeBits(lengths, symbol) <= s
    requires 1 <= l < lengths[symbol]
    ensures MsbValue(s[..l]) >= First(lengths, l) + Count(lengths, l)
  {
    hide First, Count, Rank, Pow2, MsbValue, MsbBits;
    var w, n := CodeBits(lengths, symbol), lengths[symbol];
    MsbValueOfBits(CodeOf(lengths, symbol), n);
    MsbPrefix(w, l);
    assert w[..l] == s[..l];
    ShorterCodesLieBelow(lengths, l, n);
    QuotientAtLeast(MsbValue(w), Pow2(n - l), First(lengths, l) + Count(lengths, l));
  }

  lemma {:induction false} DecodeFromCode(lengths: seq<nat>, symbol: nat, s: seq<Bit>, l: nat)
    requires HasCode(lengths, symbol) && CodeBits(lengths, symbol) <= s
    requires 1 <= l <= lengths[symbol] && Unmatched(lengths, s, l)
    ensures DecodeFrom(lengths, s, l) == Done(symbol, s[lengths[symbol]..])
    decreases lengths[symbol] - l
  {
    hide CountUpTo, Pow2, MsbBits;
    if l < lengths[symbol] {
      PrefixUnmatched(lengths, symbol, s, l);
      DecodeFromCode(lengths, symbol, s, l + 1);
    } else {
      assert s[..l] == CodeBits(lengths, symbol);
      MsbValueOfBits(CodeOf(lengths, symbol), l);
      RankBound(lengths, symbol);
      RankDistinguishes(lengths, symbol, SymbolAt(lengths, l, Rank(lengths, symbol)));
    }
  }

  /** Fed a symbol's code followed by anything, the decoder returns the symbol
      and consumes exactly the code. */
  lemma DecodeInvertsCode(lengths: seq<nat>, symbol: nat, rest: seq<Bit>)
    requires HasCode(lengths, symbol)
    ensures Decode(lengths, CodeBits(lengths, symbol) + rest) == Done(symbol, rest)
  {
    var w := CodeBits(lengths, symbol);
    DecodeFromCode(lengths, symbol, w + rest, 1);
    assert (w + rest)[|w|..] == rest;
  }

  lemma {:induction false} DecodeFromSound(lengths: seq<nat>, s: seq<Bit>, l: nat)
    requires 1 <= l <= MAX_LENGTH + 1 && Unmatched(lengths, s, l)
    requires DecodeFrom(lengths, s, l).Done?
    ensures var p := DecodeFrom(lengths, s, l);
            HasCode(lengths, p.value) && s == CodeBits(lengths, p.value) + p.rest
    decreases MAX_LENGTH + 1 - l
  {
    hide CountUpTo, Pow2;
    MsbValueNext(s, l - 1);
    var code := MsbValue(s[..l]);
    if code < First(lengths, l) + Count(lengths, l) {
      MsbValueBound(s[..l]);
      MsbBitsOfValue(s[..l]);
      assert s == s[..l] + s[l..];
    } else {
      DecodeFromSound(lengths, s, l + 1);
    }
  }

  /** The decoder is the canonical code and nothing else, whatever the list of
      code lengths, over-subscribed ones included. */
  lemma DecodeIsTheCanonicalCode(lengths: seq<nat>, s: seq<Bit>, symbol: nat, rest: seq<Bit>)
    ensures Decode(lengths, s) == Done(symbol, rest)
       <==> HasCode(lengths, symbol) && s == CodeBits(lengths, symbol) + rest
  {
    if Decode(lengths, s).Done? {
      DecodeFromSound(lengths, s, 1);
    }
    if HasCode(lengths, symbol) {
      DecodeInvertsCode(lengths, symbol, rest);
    }
  }

  /** No code is a prefix of another. */
  lemma CodesArePrefixFree(lengths: seq<nat>, a: nat, b: nat)
    requires HasCode(lengths, a) && HasCode(lengths, b)
    requires CodeBits(lengths, a) <= CodeBits(lengths, b)
    ensures a == b
  {
    var wa, wb := CodeBits(lengths, a), CodeBits(lengths, b);
    DecodeInvertsCode(lengths, a, wb[|wa|..]);
    DecodeInvertsCode(lengths, b, []);
    assert wa + wb[|wa|..] == wb == wb + [];
  }

  /** With no code at all, fifteen bits are too long a code and fewer end too soon. */
  lemma NothingDecodes(lengths: seq<nat>, s: seq<Bit>)
    requires forall symbol: nat :: !Coded(lengths, symbol)
    ensures Decode(lengths, s) == Fail(if |s| < 15 then EndsInsideCode else CodeTooLong)
  {
    NothingDecodesFrom(lengths, s, 1);
  }

  lemma UnmatchedNext(lengths: seq<nat>, s: seq<Bit>, l: nat)
    requires 1 <= l <= |s| && Count(lengths, l) == 0 && Unmatched(lengths, s, l)
    ensures Unmatched(lengths, s, l + 1)
  {
    hide CountUpTo, MsbValue;
    MsbValueNext(s, l - 1);
    if l == 1 {
      assert First(lengths, 0) == 0 && Count(lengths, 0) == 0;
      assert First(lengths, 1) == 0;
    }
  }

  lemma {:induction false} NothingDecodesFrom(lengths: seq<nat>, s: seq<Bit>, l: nat)
    requires forall symbol: nat :: !Coded(lengths, symbol)
    requires 1 <= l <= 16 && l <= |s| + 1 && Unmatched(lengths, s, l)
    ensures DecodeFrom(lengths, s, l) == Fail(if |s| < 15 then EndsInsideCode else CodeTooLong)
    decreases 16 - l
  {
    hide CountUpTo, First, MsbValue, Unmatched;
    if l <= 15 && l <= |s| {
      if Count(lengths, l) > 0 {
        var symbol := SymbolAt(lengths, l, 0);
      }
      UnmatchedNext(lengths, s, l);
      NothingDecodesFrom(lengths, s, l + 1);
    }
  }

  // ----- Which lists of lengths are codes: Kraft's inequality -----

  /** Each code of length `l` takes 2^(15-l) of the 2^15 words of 15 bits. */
  function KraftUpTo(lengths: seq<nat>, n: nat): nat
    requires n <= |lengths|
  {
    if n == 0 then 0
    else KraftUpTo(lengths, n - 1) +
         if 1 <= lengths[n - 1] <= MAX_LENGTH then Pow2(MAX_LENGTH - lengths[n - 1]) else 0
  }

  predicate Kraft(lengths: seq<nat>) {
    KraftUpTo(lengths, |lengths|) <= Pow2(MAX_LENGTH)
  }

  /** How many words of `l` bits the codes of the first `n` symbols take. */
  function Used(lengths: seq<nat>, n: nat, l: nat): nat
    requires n <= |lengths|
  {
    if l == 0 then 0 else 2 * Used(lengths, n, l - 1) + CountUpTo(lengths, n, l)
  }

  lemma {:induction false} UsedIsNextCode(lengths: seq<nat>, l: nat)
    ensures Used(lengths, |lengths|, l) == First(lengths, l) + Count(lengths, l)
  {
    if l != 0 {
      UsedIsNextCode(lengths, l - 1);
    }
  }

  lemma {:induction false} UsedStep(lengths: seq<nat>, n: nat, l: nat)
    requires n < |lengths|
    ensures Used(lengths, n + 1, l) == Used(lengths, n, l) +
              if 1 <= lengths[n] <= l then Pow2(l - lengths[n]) else 0
  {
    if l != 0 {
      UsedStep(lengths, n, l - 1);
    }
  }

  lemma {:induction false} UsedIsKraft(lengths: seq<nat>, n: nat)
    requires n <= |lengths|
    ensures Used(lengths, n, MAX_LENGTH) == KraftUpTo(lengths, n)
  {
    if n == 0 {
      UsedByNone(lengths, MAX_LENGTH);
    } else {
      UsedIsKraft(lengths, n - 1);
      UsedStep(lengths, n - 1, MAX_LENGTH);
    }
  }

  lemma {:induction false} UsedByNone(lengths: seq<nat>, l: nat)
    ensures Used(lengths, 0, l) == 0
  {
    if l != 0 {
      UsedByNone(lengths, l - 1);
    }
  }

  /** Too many words taken at one length is too many at every later one. */
  lemma {:induction false} OverflowPersists(lengths: seq<nat>, k: nat, l: nat)
    requires k <= l && Used(lengths, |lengths|, k) > Pow2(k)
    ensures Used(lengths, |lengths|, l) > Pow2(l)
    decreases l - k
  {
    if k < l {
      OverflowPersists(lengths, k, l - 1);
    }
  }

  /** The first length at which too many words are taken has a code that does
      not fit, namely its last. */
  lemma {:induction false} OverflowHasWitness(lengths: seq<nat>, l: nat) returns (symbol: nat)
    requires l <= MAX_LENGTH && Used(lengths, |lengths|, l) > Pow2(l)
    ensures Coded(lengths, symbol) && !HasCode(lengths, symbol)
  {
    if Used(lengths, |lengths|, l - 1) > Pow2(l - 1) {
      symbol := OverflowHasWitness(lengths, l - 1);
    } else {
      UsedIsNextCode(lengths, l);
      symbol := SymbolAt(lengths, l, Count(lengths, l) - 1);
    }
  }

  /** Kraft's inequality is exactly the condition under which every symbol that
      was given a length has a code the decoder can return. */
  lemma KraftIffEveryCodeFits(lengths: seq<nat>)
    ensures Kraft(lengths)
       <==> forall symbol: nat :: Coded(lengths, symbol) ==> HasCode(lengths, symbol)
  {
    UsedIsKraft(lengths, |lengths|);
    if Kraft(lengths) {
      forall symbol: nat | Coded(lengths, symbol)
        ensures HasCode(lengths, symbol)
      {
        var l := lengths[symbol];
        if Used(lengths, |lengths|, l) > Pow2(l) {
          OverflowPersists(lengths, l, MAX_LENGTH);
        }
        UsedIsNextCode(lengths, l);
        RankBound(lengths, symbol);
      }
    } else {
      var symbol := OverflowHasWitness(lengths, MAX_LENGTH);
    }
  }

  /** When the codes take every word there is, fifteen bits always decode. */
  lemma {:induction false} CompleteCodesAlwaysDecode(lengths: seq<nat>, s: seq<Bit>, l: nat)
    requires KraftUpTo(lengths, |lengths|) == Pow2(MAX_LENGTH) && |s| >= MAX_LENGTH
    requires 1 <= l <= MAX_LENGTH && Unmatched(lengths, s, l)
    ensures DecodeFrom(lengths, s, l).Done?
    decreases MAX_LENGTH - l
  {
    hide CountUpTo, Used, KraftUpTo, SymbolAt, MsbValue, Pow2;
    MsbValueNext(s, l - 1);
    if l < MAX_LENGTH {
      if MsbValue(s[..l]) - First(lengths, l) >= Count(lengths, l) {
        CompleteCodesAlwaysDecode(lengths, s, l + 1);
      }
    } else {
      MsbValueBound(s[..l]);
      UsedIsKraft(lengths, |lengths|);
      UsedIsNextCode(lengths, l);
    }
  }

  // ----- The decoding table -----

  /** How many symbols have a length from 1 up to but not including `l`. */
  function Offset(lengths: seq<nat>, l: nat): nat {
    if l <= 1 then 0 else Offset(lengths, l - 1) + Count(lengths, l - 1)
  }

  lemma {:induction false} OffsetMonotone(lengths: seq<nat>, k: nat, l: nat)
    requires 1 <= k < l
    ensures Offset(lengths, k) + Count(lengths, k) <= Offset(lengths, l)
    decreases l - k
  {
    if k + 1 < l {
      OffsetMonotone(lengths, k, l - 1);
    }
  }

  function OffsetUpTo(lengths: seq<nat>, n: nat, l: nat): nat
    requires n <= |lengths|
  {
    if l <= 1 then 0 else OffsetUpTo(lengths, n, l - 1) + CountUpTo(lengths, n, l - 1)
  }

  lemma {:induction false} OffsetUpToStep(lengths: seq<nat>, n: nat, l: nat)
    requires n < |lengths|
    ensures OffsetUpTo(lengths, n + 1, l) ==
            OffsetUpTo(lengths, n, l) + if 1 <= lengths[n] < l then 1 else 0
  {
    if l > 1 {
      OffsetUpToStep(lengths, n, l - 1);
    }
  }

  lemma {:induction false} OffsetUpToBound(lengths: seq<nat>, n: nat, l: nat)
    requires n <= |lengths|
    ensures OffsetUpTo(lengths, n, l) <= n
  {
    if n != 0 {
      OffsetUpToBound(lengths, n - 1, l);
      OffsetUpToStep(lengths, n - 1, l);
    } else if l > 1 {
      OffsetUpToBound(lengths, n, l - 1);
    }
  }

  lemma {:induction false} OffsetIsOffsetUpTo(lengths: seq<nat>, l: nat)
    ensures Offset(lengths, l) == OffsetUpTo(lengths, |lengths|, l)
  {
    if l > 1 {
      OffsetIsOffsetUpTo(lengths, l - 1);
    }
  }

  /** Where a symbol stands when symbols are ordered by length, then by value. */
  function Slot(lengths: seq<nat>, symbol: nat): nat
    requires symbol < |lengths|
  {
    Offset(lengths, lengths[symbol]) + Rank(lengths, symbol)
  }

  lemma SlotInRange(lengths: seq<nat>, symbol: nat)
    requires Coded(lengths, symbol)
    ensures Slot(lengths, symbol) < |lengths|
  {
    RankBound(lengths, symbol);
    OffsetIsOffsetUpTo(lengths, lengths[symbol] + 1);
    OffsetUpToBound(lengths, |lengths|, lengths[symbol] + 1);
  }

  lemma SlotsDiffer(lengths: seq<nat>, a: nat, b: nat)
    requires Coded(lengths, a) && Coded(lengths, b) && a != b
    ensures Slot(lengths, a) != Slot(lengths, b)
  {
    RankBound(lengths, a);
    RankBound(lengths, b);
    if lengths[a] == lengths[b] {
      if Rank(lengths, a) == Rank(lengths, b) {
        RankDistinguishes(lengths, a, b);
      }
    } else if lengths[a] < lengths[b] {
      OffsetMonotone(lengths, lengths[a], lengths[b]);
    } else {
      OffsetMonotone(lengths, lengths[b], lengths[a]);
    }
  }

  const U16_MAX := 0xffff

  function SaturatingU16(n: nat): nat {
    if n > U16_MAX then U16_MAX else n
  }

  /** A canonical Huffman decoding table: how many codes there are of each
      length, and the symbols ordered by length and then by value. */
  datatype Tree = Tree(counts: seq<nat>, symbols: seq<nat>) {
    ghost predicate Describes(lengths: seq<nat>) {
      && |counts| == MAX_LENGTH + 1
      && |symbols| == |lengths|
      && (forall l :: 0 <= l <= MAX_LENGTH ==> counts[l] == Count(lengths, l))
      && (forall symbol: nat :: Coded(lengths, symbol) ==>
            Slot(lengths, symbol) < |symbols| && symbols[Slot(lengths, symbol)] == symbol)
    }

    /** One turn of the walk: the table answers as the canonical code does. */
    lemma WalkStep(lengths: seq<nat>, s: seq<Bit>, l: nat)
      requires Describes(lengths)
      requires 1 <= l <= MAX_LENGTH && l <= |s| && Unmatched(lengths, s, l)
      ensures MsbValue(s[..l]) == 2 * MsbValue(s[..l - 1]) + s[l - 1]
      ensures First(lengths, l + 1) == 2 * (First(lengths, l) + counts[l])
      ensures Offset(lengths, l + 1) == Offset(lengths, l) + counts[l]
      ensures var rank := MsbValue(s[..l]) - First(lengths, l);
              && rank >= 0
              && (rank < counts[l] ==>
                    && Offset(lengths, l) + rank < |symbols|
                    && DecodeFrom(lengths, s, l) == Done(symbols[Offset(lengths, l) + rank], s[l..]))
              && (rank >= counts[l] ==>
                    && Unmatched(lengths, s, l + 1)
                    && DecodeFrom(lengths, s, l) == DecodeFrom(lengths, s, l + 1))
    {
      hide CountUpTo, MsbValue, Rank;
      MsbValueNext(s, l - 1);
      var rank := MsbValue(s[..l]) - First(lengths, l);
      assert First(lengths, 1) == 0;
      assert rank >= 0;
      if rank < Count(lengths, l) {
        var symbol := SymbolAt(lengths, l, rank);
        assert Offset(lengths, l) + rank == Slot(lengths, symbol);
      }
    }

    lemma WalkStart(lengths: seq<nat>, s: seq<Bit>)
      ensures First(lengths, 1) == 0 && Offset(lengths, 1) == 0 && MsbValue(s[..0]) == 0
      ensures Unmatched(lengths, s, 1) && DecodeFrom(lengths, s, 1) == Decode(lengths, s)
    {
      assert First(lengths, 0) == 0 && Count(lengths, 0) == 0;
    }

    lemma WalkEnd(lengths: seq<nat>, s: seq<Bit>, l: nat)
      requires 1 <= l <= MAX_LENGTH + 1 && Unmatched(lengths, s, l)
      requires |s| < l || l > MAX_LENGTH
      ensures DecodeFrom(lengths, s, l) == Fail(if l > MAX_LENGTH then CodeTooLong else EndsInsideCode)
    {
    }

    /** Reads one symbol out of the stream: walk the lengths, tracking the first
        code of each and how many there are, until the code so far is one. */
    method ReadSymbol(bits: BitReader, ghost lengths: seq<nat>) returns (r: Result<nat, Fault>)
      requires bits.Valid() && Describes(lengths)
      modifies bits
      ensures bits.Valid()
      ensures var p := Decode(lengths, old(bits.Rest()));
              if p.Done? then r == Ok(p.value) && bits.Rest() == p.rest else r == Err(p.fault)
    {
      hide First, Count, Offset, Slot, Coded, MsbValue, Decode, DecodeFrom, SymbolAt, Unmatched;
      ghost var s := bits.Rest();
      ghost var expected := Decode(lengths, s);
      var code: int, first: int, index: int := 0, 0, 0;
      WalkStart(lengths, s);
      for length := 1 to 16
        invariant bits.Valid()
        invariant length - 1 <= |s| && bits.Rest() == s[length - 1..]
        invariant code == 2 * MsbValue(s[..length - 1])
        invariant first == First(lengths, length) && index == Offset(lengths, length)
        invariant Unmatched(lengths, s, length)
        invariant DecodeFrom(lengths, s, length) == expected
      {
        if |s| < length {
          WalkEnd(lengths, s, length);
        }
        var b :- bits.ReadBit();
        code := code + b;
        WalkStep(lengths, s, length);
        var count := counts[length];
        if code - first < count {
          return Ok(symbols[index + (code - first)]);
        }
        index := index + count;
        first := (first + count) * 2;
        code := code * 2;
      }
      WalkEnd(lengths, s, 16);
      return Err(CodeTooLong);
    }
  }

  /** Counts the lengths; a length the table has no slot for is skipped. */
  method CountLengths(lengths: seq<Byte>) returns (counts: array<nat>)
    ensures fresh(counts) && counts.Length == MAX_LENGTH + 1
    ensures |lengths| <= U16_MAX ==>
              forall l :: 0 <= l <= MAX_LENGTH ==> counts[l] == Count(lengths, l)
  {
    counts := new nat[16](_ => 0);
    for at := 0 to |lengths|
      invariant |lengths| <= U16_MAX ==>
                  forall l :: 0 <= l < counts.Length ==> counts[l] == CountUpTo(lengths, at, l)
    {
      var length := lengths[at];
      if length < counts.Length {
        counts[length] := SaturatingU16(counts[length] + 1);
      }
    }
    counts[0] := 0;
  }

  /** Where the symbols of each length start in the table. */
  method Offsets(counts: array<nat>, ghost lengths: seq<nat>) returns (offsets: array<nat>)
    requires counts.Length == MAX_LENGTH + 1
    requires |lengths| <= U16_MAX ==>
               forall l :: 0 <= l <= MAX_LENGTH ==> counts[l] == Count(lengths, l)
    ensures fresh(offsets) && offsets.Length == MAX_LENGTH + 1
    ensures |lengths| <= U16_MAX ==>
              forall l :: 1 <= l <= MAX_LENGTH ==> offsets[l] == Offset(lengths, l)
  {
    offsets := new nat[16](_ => 0);
    var running := 0;
    for length := 1 to 16
      invariant |lengths| <= U16_MAX ==> running == Offset(lengths, length)
      invariant |lengths| <= U16_MAX ==>
                  forall l :: 1 <= l < length ==> offsets[l] == Offset(lengths, l)
    {
      offsets[length] := running;
      OffsetIsOffsetUpTo(lengths, length + 1);
      OffsetUpToBound(lengths, |lengths|, length + 1);
      running := SaturatingU16(running + counts[length]);
    }
  }

  /** Every symbol below `n` that has a length stands in its slot. */
  ghost predicate Stands(lengths: seq<nat>, n: nat, symbols: seq<nat>) {
    |symbols| == |lengths| &&
    forall t: nat :: t < n && Coded(lengths, t) ==>
      Slot(lengths, t) < |lengths| && symbols[Slot(lengths, t)] == t
  }

  lemma StandsAtFirst(lengths: seq<nat>, symbols: seq<nat>)
    requires |symbols| == |lengths|
    ensures Stands(lengths, 0, symbols)
  {
  }

  lemma CodedIs(lengths: seq<nat>, symbol: nat)
    requires symbol < |lengths|
    ensures Coded(lengths, symbol) <==> 1 <= lengths[symbol] <= MAX_LENGTH
  {
  }

  lemma StandsNext(lengths: seq<nat>, symbol: nat, symbols: seq<nat>)
    requires Stands(lengths, symbol, symbols) && Coded(lengths, symbol)
    ensures Slot(lengths, symbol) < |symbols|
    ensures Stands(lengths, symbol + 1, symbols[Slot(lengths, symbol) := symbol])
  {
    SlotInRange(lengths, symbol);
    forall t: nat | t < symbol && Coded(lengths, t)
      ensures Slot(lengths, t) != Slot(lengths, symbol)
    {
      SlotsDiffer(lengths, t, symbol);
    }
  }

  /** The next free slot of each length once the symbols below `n` are placed. */
  ghost predicate NextFree(lengths: seq<nat>, n: nat, offsets: seq<nat>) {
    n <= |lengths| && |offsets| == MAX_LENGTH + 1 &&
    forall l :: 1 <= l <= MAX_LENGTH ==> offsets[l] == Offset(lengths, l) + CountUpTo(lengths, n, l)
  }

  lemma NextFreeNext(lengths: seq<nat>, symbol: nat, offsets: seq<nat>)
    requires symbol < |lengths| && NextFree(lengths, symbol, offsets)
    ensures !Coded(lengths, symbol) ==> NextFree(lengths, symbol + 1, offsets)
    ensures Coded(lengths, symbol) ==>
              && offsets[lengths[symbol]] == Slot(lengths, symbol) < |lengths|
              && NextFree(lengths, symbol + 1, offsets[lengths[symbol] := offsets[lengths[symbol]] + 1])
  {
    if Coded(lengths, symbol) {
      SlotInRange(lengths, symbol);
    }
  }

  /** Places every symbol in the slot its length reserves for it. */
  method PlaceSymbols(lengths: seq<Byte>, offsets: array<nat>) returns (symbols: array<nat>)
    requires offsets.Length == MAX_LENGTH + 1
    requires |lengths| <= U16_MAX ==> NextFree(lengths, 0, offsets[..])
    modifies offsets
    ensures fresh(symbols) && symbols.Length == |lengths|
    ensures |lengths| <= U16_MAX ==> Stands(lengths, |lengths|, symbols[..])
  {
    symbols := new nat[|lengths|](_ => 0);
    StandsAtFirst(lengths, symbols[..]);
    hide Stands, NextFree, Slot, Coded;
    for symbol := 0 to |lengths|
      invariant |offsets[..]| == MAX_LENGTH + 1
      invariant |lengths| <= U16_MAX ==> NextFree(lengths, symbol, offsets[..])
      invariant |lengths| <= U16_MAX ==> Stands(lengths, symbol, symbols[..])
    {
      var length := lengths[symbol];
      if |lengths| <= U16_MAX {
        NextFreeNext(lengths, symbol, offsets[..]);
        CodedIs(lengths, symbol);
        if Coded(lengths, symbol) {
          StandsNext(lengths, symbol, symbols[..]);
        }
      }
      if 0 < length < offsets.Length {
        var offset := offsets[length];
        if offset < symbols.Length {
          symbols[offset] := symbol % 0x1_0000;
        }
        offsets[length] := SaturatingU16(offset + 1);
      }
    }
  }

  /** Builds the canonical table a list of code lengths describes. The decoder
      only ever asks for lists of at most 320 lengths, so the sixteen-bit counts
      and symbols do not saturate. */
  method FromLengths(lengths: seq<Byte>) returns (tree: Tree)
    ensures |lengths| <= U16_MAX ==> tree.Describes(lengths)
  {
    var counts := CountLengths(lengths);
    var offsets := Offsets(counts, lengths);
    var table := counts[..];
    var symbols := PlaceSymbols(lengths, offsets);
    tree := Tree(table, symbols[..]);
  }
}
