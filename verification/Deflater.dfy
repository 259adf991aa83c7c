/** The compressor: one final block of fixed codes over hash chains whose every
    match is checked byte by byte. */
module Deflater {
  import opened Bits
  import opened BitStreams
  import opened Huffman
  import opened DeflateFormat
  import opened Numbers

  const WINDOW := 32768
  const LONGEST_MATCH := 258
  const SHORTEST_MATCH := 3
  const CHAIN_LIMIT := 32
  const BUCKETS := 32768

  type U32 = x: int | 0 <= x < 0x1_0000_0000
  const NONE: U32 := 0xffff_ffff

  // ----- The matcher -----

  /** The bytes at `at` repeat the bytes `distance` before them. */
  ghost predicate TrueMatch(input: seq<Byte>, at: nat, length: nat, distance: nat) {
    && 1 <= distance <= at && distance <= WINDOW
    && length <= LONGEST_MATCH && at + length <= |input|
    && forall k :: at <= k < at + length ==> input[k] == input[k - distance]
  }

  /** How far the bytes at `start` and at `at` agree, from `n` bytes on. */
  function Agreement(input: seq<Byte>, start: nat, at: nat, n: nat): (length: nat)
    requires start < at && n <= LONGEST_MATCH && at + n <= |input|
    ensures n <= length <= LONGEST_MATCH && at + length <= |input|
    decreases LONGEST_MATCH - n
  {
    if n < LONGEST_MATCH && at + n < |input| && input[start + n] == input[at + n]
    then Agreement(input, start, at, n + 1) else n
  }

  lemma {:induction false} AgreementAgrees(input: seq<Byte>, start: nat, at: nat, n: nat)
    requires start < at && n <= LONGEST_MATCH && at + n <= |input|
    ensures forall k :: at + n <= k < at + Agreement(input, start, at, n) ==> input[k] == input[k - (at - start)]
    decreases LONGEST_MATCH - n
  {
    if n < LONGEST_MATCH && at + n < |input| && input[start + n] == input[at + n] {
      AgreementAgrees(input, start, at, n + 1);
    }
  }

  function Get(input: seq<Byte>, at: nat): Byte {
    if at < |input| then input[at] else 0
  }

  function Hash(a: Byte, b: Byte, c: Byte): (bucket: nat)
    ensures bucket < BUCKETS
  {
    var first, second, third := a as bv32, b as bv32, c as bv32;
    var mixed := (first * 0x9e37_79b1) ^ (second * 0x85eb_ca6b) ^ (third * 0xc2b2_ae35);
    (mixed >> 17) as int % BUCKETS
  }

  /** The bucket the three bytes at a position fall in. */
  function Bucket(input: seq<Byte>, at: nat): (bucket: nat)
    ensures bucket < BUCKETS
  {
    Hash(Get(input, at), Get(input, at + 1), Get(input, at + 2))
  }

  class Chains {
    /** The most recent position each three-byte hash was seen at. */
    const head: array<U32>
    /** The previous position with the same hash, per position. */
    const previous: array<U32>

    constructor (input: seq<Byte>)
      ensures Valid() && fresh(head) && fresh(previous)
      ensures previous.Length == |input| + 1
      ensures forall k :: 0 <= k < BUCKETS ==> head[k] == NONE
    {
      head := new U32[BUCKETS](_ => NONE);
      previous := new U32[|input| + 1](_ => NONE);
    }

    ghost predicate Valid() {
      head.Length == BUCKETS && head != previous
    }

    /** Records that a position exists, so later positions can match it. */
    method Insert(input: seq<Byte>, at: nat)
      requires Valid()
      modifies head, previous
      ensures if at + SHORTEST_MATCH > |input| then head[..] == old(head[..]) && previous[..] == old(previous[..])
              else
                && head[..] == old(head[..])[Bucket(input, at) := at % 0x1_0000_0000]
                && previous[..] == if at < previous.Length
                                   then old(previous[..])[at := old(head[Bucket(input, at)])]
                                   else old(previous[..])
    {
      hide Bucket, Get;
      if at + SHORTEST_MATCH > |input| {
        return;
      }
      var bucket := Bucket(input, at);
      if at < previous.Length {
        previous[at] := head[bucket];
      }
      head[bucket] := at % 0x1_0000_0000;
    }

    function Link(candidate: U32): U32
      reads previous
    {
      if candidate < previous.Length then previous[candidate] else NONE
    }

    /** The `k`th position the chain of a bucket offers. */
    ghost function Offer(bucket: nat, k: nat): U32
      requires Valid() && bucket < BUCKETS
      reads head, previous
    {
      if k == 0 then head[bucket] else Link(Offer(bucket, k - 1))
    }

    ghost predicate Reached(bucket: nat, at: nat, k: nat)
      requires Valid() && bucket < BUCKETS
      reads head, previous
    {
      forall j :: 0 <= j <= k ==> Offer(bucket, j) != NONE && Offer(bucket, j) < at && at - Offer(bucket, j) <= WINDOW
    }

    /** The `k`th offer agrees for `length` bytes, `distance` back. */
    ghost predicate Offers(input: seq<Byte>, at: nat, k: nat, length: nat, distance: nat)
      requires Valid() && at <= |input|
      reads head, previous
    {
      && Reached(Bucket(input, at), at, k)
      && length == Agreement(input, Offer(Bucket(input, at), k), at, 0)
      && distance == at - Offer(Bucket(input, at), k)
    }

    /** Returns the longest match the chain offers at a position, the first of them
        when several are as long, and how far back it starts; nothing when no offer
        agrees in its first byte. */
    method Longest(input: seq<Byte>, at: nat) returns (length: nat, distance: nat)
      requires Valid()
      ensures length > 0 ==> TrueMatch(input, at, length, distance)
      ensures at + SHORTEST_MATCH > |input| ==> length == 0
      ensures at + SHORTEST_MATCH <= |input| ==>
                && (forall k :: 0 <= k < CHAIN_LIMIT && Reached(Bucket(input, at), at, k) ==>
                      Agreement(input, Offer(Bucket(input, at), k), at, 0) <= length)
                && (length > 0 ==> exists k: nat :: k < CHAIN_LIMIT && Offers(input, at, k, length, distance)
                                                    && Shorter(input, at, k, length))
    {
      hide Bucket, Get, Agreement, Chains.Reached, Chains.Offers, Chains.Seen, Chains.Shorter;
      if at + SHORTEST_MATCH > |input| {
        return 0, 0;
      }
      var bucket := Bucket(input, at);
      var candidate := head[bucket];
      length, distance := 0, 0;
      var looked: nat := 0;
      ghost var best: nat := 0;
      SeenNone(input, at);
      while candidate != NONE && looked < CHAIN_LIMIT
        invariant looked <= CHAIN_LIMIT && candidate == Offer(bucket, looked)
        invariant length <= LONGEST_MATCH
        invariant looked > 0 ==> Reached(bucket, at, looked - 1)
        invariant Seen(input, at, looked, length)
        invariant length > 0 ==> best < looked && Offers(input, at, best, length, distance) && Shorter(input, at, best, length)
        decreases CHAIN_LIMIT - looked
      {
        var start := candidate;
        if start >= at || at - start > WINDOW {
          break;
        }
        ReachedNext(bucket, at, looked);
        var run := CommonRun(input, start, at);
        SeenNext(input, at, looked, length, if run > length then run else length);
        if run > length {
          AllShorter(input, at, looked, length, run);
          length, distance := run, at - start;
          best := looked;
          OfferFound(input, at, looked);
          if length >= LONGEST_MATCH {
            break;
          }
        }
        candidate := Link(start);
        looked := looked + 1;
      }
      if length > 0 {
        OfferIsTrueMatch(input, at, best, length, distance);
      }
      EveryOfferSeen(input, at, looked, length);
    }

    /** None of the first offers agrees for longer. */
    ghost predicate Seen(input: seq<Byte>, at: nat, looked: nat, length: nat)
      requires Valid() && at <= |input|
      reads head, previous
    {
      forall k :: 0 <= k < looked ==>
        Offer(Bucket(input, at), k) < at && Agreement(input, Offer(Bucket(input, at), k), at, 0) <= length
    }

    /** Each of the first offers agrees for fewer bytes. */
    ghost predicate Shorter(input: seq<Byte>, at: nat, looked: nat, length: nat)
      requires Valid() && at <= |input|
      reads head, previous
    {
      forall k :: 0 <= k < looked ==>
        Offer(Bucket(input, at), k) < at && Agreement(input, Offer(Bucket(input, at), k), at, 0) < length
    }

    lemma AllShorter(input: seq<Byte>, at: nat, looked: nat, length: nat, longer: nat)
      requires Valid() && at <= |input| && Seen(input, at, looked, length) && length < longer
      ensures Shorter(input, at, looked, longer)
    {
      hide Agreement, Bucket;
    }

    lemma SeenNext(input: seq<Byte>, at: nat, looked: nat, length: nat, longer: nat)
      requires Valid() && at <= |input| && Seen(input, at, looked, length) && length <= longer
      requires Offer(Bucket(input, at), looked) < at
      requires Agreement(input, Offer(Bucket(input, at), looked), at, 0) <= longer
      ensures Seen(input, at, looked, longer) && Seen(input, at, looked + 1, longer)
    {
      hide Agreement, Bucket;
    }

    lemma SeenNone(input: seq<Byte>, at: nat)
      requires Valid() && at <= |input|
      ensures Seen(input, at, 0, 0)
    {
    }

    /** The offers end where the walk stopped. */
    lemma EveryOfferSeen(input: seq<Byte>, at: nat, looked: nat, length: nat)
      requires Valid() && at <= |input|
      requires Seen(input, at, looked, length)
      requires looked >= CHAIN_LIMIT || length >= LONGEST_MATCH || Unusable(Offer(Bucket(input, at), looked), at)
      ensures forall k :: 0 <= k < CHAIN_LIMIT && Reached(Bucket(input, at), at, k) ==>
                Agreement(input, Offer(Bucket(input, at), k), at, 0) <= length
    {
      hide Agreement, Bucket;
    }

    /** The chains link every earlier position of at least three bytes, the latest first. */
    ghost predicate Complete(input: seq<Byte>, at: nat)
      reads head, previous
    {
      Linked(head[..], previous[..], input, at)
    }

    /** A recent position with the same three bytes is among the first offers. */
    lemma {:induction false} FindOffer(input: seq<Byte>, at: nat, target: nat, k: nat) returns (found: nat)
      requires Valid() && Complete(input, at) && at + SHORTEST_MATCH <= |input| < NONE
      requires target < at && at - target <= CHAIN_LIMIT && Bucket(input, target) == Bucket(input, at)
      requires Reached(Bucket(input, at), at, k)
      requires var o := Offer(Bucket(input, at), k);
               target <= o && o + k < at && Bucket(input, o) == Bucket(input, at)
      ensures k <= found < CHAIN_LIMIT && Reached(Bucket(input, at), at, found)
      ensures Offer(Bucket(input, at), found) == target
      decreases at - k
    {
      hide Bucket, Latest, Linked, Chains.Complete;
      var b := Bucket(input, at);
      var o := Offer(b, k);
      if o == target {
        found := k;
      } else {
        LatestIsRecent(input, b, o, target);
        LinkIs(input, at, o);
        assert Offer(b, k + 1) == Latest(input, b, o);
        ReachedNext(b, at, k + 1);
        found := FindOffer(input, at, target, k + 1);
      }
    }

    lemma LinkIs(input: seq<Byte>, at: nat, candidate: U32)
      requires Complete(input, at) && candidate < at <= |input| < NONE && candidate + SHORTEST_MATCH <= |input|
      ensures Link(candidate) == Latest(input, Bucket(input, candidate), candidate)
    {
      hide Latest, Bucket;
      assert previous[..][candidate] == previous[candidate];
    }

    lemma HeadIs(input: seq<Byte>, at: nat, bucket: nat)
      requires Valid() && Complete(input, at) && at <= |input| < NONE && bucket < BUCKETS
      ensures head[bucket] == Latest(input, bucket, at)
    {
      hide Latest, Bucket;
      assert head[..][bucket] == head[bucket];
    }

    /** Each offer stands before the one it follows. */
    lemma {:induction false} OffersGoBack(input: seq<Byte>, at: nat, j: nat, k: nat)
      requires Valid() && Complete(input, at) && at + SHORTEST_MATCH <= |input| < NONE
      requires j <= k && Reached(Bucket(input, at), at, k)
      ensures Offer(Bucket(input, at), k) <= Offer(Bucket(input, at), j)
    {
      hide Bucket, Latest, Linked, Chains.Complete;
      if j < k {
        var b := Bucket(input, at);
        OffersGoBack(input, at, j, k - 1);
        var o := Offer(b, k - 1);
        LinkIs(input, at, o);
        LatestIsBefore(input, Bucket(input, o), o);
        assert Offer(b, k) == Link(o);
      }
    }

    /** Where the input goes on repeating itself, the match found is as long as there can
        be, and no further back than the repeat. */
    lemma RepeatIsFound(input: seq<Byte>, at: nat, length: nat, distance: nat, q: nat, p: nat)
      requires Valid() && Complete(input, at) && at + SHORTEST_MATCH <= |input| < NONE
      requires RepeatsFrom(input, q, p) && q <= at
      requires forall k :: 0 <= k < CHAIN_LIMIT && Reached(Bucket(input, at), at, k) ==>
                             Agreement(input, Offer(Bucket(input, at), k), at, 0) <= length
      requires length > 0 ==> exists k: nat :: k < CHAIN_LIMIT && Offers(input, at, k, length, distance)
                                               && Shorter(input, at, k, length)
      ensures length >= Min(LONGEST_MATCH, |input| - at) && distance <= p
    {
      hide Bucket, Latest, Agreement, Linked, Chains.Complete;
      SameBucket(input, at, q, p);
      var b := Bucket(input, at);
      LatestIsRecent(input, b, at, at - p);
      HeadIs(input, at, b);
      ReachedNext(b, at, 0);
      var found := FindOffer(input, at, at - p, 0);
      AgreementIsFull(input, at, q, p, 0);
      var k: nat :| k < CHAIN_LIMIT && Offers(input, at, k, length, distance) && Shorter(input, at, k, length);
      if k <= found {
        OffersGoBack(input, at, k, found);
      }
    }

    static predicate Unusable(candidate: U32, at: nat) {
      candidate == NONE || candidate >= at || at - candidate > WINDOW
    }

    lemma OfferFound(input: seq<Byte>, at: nat, k: nat)
      requires Valid() && at <= |input| && Reached(Bucket(input, at), at, k)
      ensures var start := Offer(Bucket(input, at), k);
              start < at && Offers(input, at, k, Agreement(input, start, at, 0), at - start)
    {
    }

    lemma ReachedNext(bucket: nat, at: nat, k: nat)
      requires Valid() && bucket < BUCKETS
      requires k > 0 ==> Reached(bucket, at, k - 1)
      requires Offer(bucket, k) != NONE && Offer(bucket, k) < at && at - Offer(bucket, k) <= WINDOW
      ensures Reached(bucket, at, k)
    {
    }

    lemma OfferIsTrueMatch(input: seq<Byte>, at: nat, k: nat, length: nat, distance: nat)
      requires Valid() && at <= |input| && Offers(input, at, k, length, distance)
      ensures TrueMatch(input, at, length, distance)
    {
      hide Bucket, Agreement, Chains.Offer;
      AgreementAgrees(input, Offer(Bucket(input, at), k), at, 0);
    }
  }

  /** The latest position before `at`, of at least three bytes, in a bucket. */
  ghost function Latest(input: seq<Byte>, bucket: nat, at: nat): U32
    requires at <= |input| < NONE
  {
    if at == 0 then NONE
    else if at + 2 <= |input| && Bucket(input, at - 1) == bucket then at - 1
    else Latest(input, bucket, at - 1)
  }

  lemma {:induction false} LatestIsBefore(input: seq<Byte>, bucket: nat, at: nat)
    requires at <= |input| < NONE
    ensures Latest(input, bucket, at) == NONE || Latest(input, bucket, at) < at
  {
    hide Bucket;
    if at > 0 {
      LatestIsBefore(input, bucket, at - 1);
    }
  }

  ghost predicate Linked(heads: seq<U32>, links: seq<U32>, input: seq<Byte>, at: nat) {
    at <= |input| < NONE ==>
      && |heads| == BUCKETS && |links| == |input| + 1
      && (forall b :: 0 <= b < BUCKETS ==> heads[b] == Latest(input, b, at))
      && (forall i :: 0 <= i < at && i + 3 <= |input| ==> links[i] == Latest(input, Bucket(input, i), i))
  }

  lemma LinkedNext(heads: seq<U32>, links: seq<U32>, input: seq<Byte>, at: nat)
    requires Linked(heads, links, input, at) && at < |input|
    ensures at + 3 > |input| ==> Linked(heads, links, input, at + 1)
    ensures at + 3 <= |input| < NONE ==>
              |heads| == BUCKETS && |links| == |input| + 1 &&
              Linked(heads[Bucket(input, at) := at], links[at := heads[Bucket(input, at)]], input, at + 1)
  {
    hide Bucket;
  }

  lemma LinkedAtFirst(heads: seq<U32>, links: seq<U32>, input: seq<Byte>)
    requires |heads| == BUCKETS && |links| == |input| + 1 && forall b :: 0 <= b < BUCKETS ==> heads[b] == NONE
    ensures Linked(heads, links, input, 0)
  {
  }

  lemma {:induction false} LatestIsRecent(input: seq<Byte>, bucket: nat, at: nat, target: nat)
    requires target < at <= |input| < NONE && target + 3 <= |input| && Bucket(input, target) == bucket
    ensures var l := Latest(input, bucket, at);
            target <= l < at && l + 3 <= |input| && Bucket(input, l) == bucket
  {
    hide Bucket;
    if at - 1 > target && !(at + 2 <= |input| && Bucket(input, at - 1) == bucket) {
      LatestIsRecent(input, bucket, at - 1, target);
    }
  }

  /** From place `q` on every byte is the one `p` before it. */
  ghost predicate RepeatsFrom(input: seq<Byte>, q: nat, p: nat) {
    1 <= p <= CHAIN_LIMIT && p <= q && forall k :: q <= k < |input| ==> input[k] == input[k - p]
  }

  lemma SameBucket(input: seq<Byte>, at: nat, q: nat, p: nat)
    requires RepeatsFrom(input, q, p) && q <= at && at + 3 <= |input|
    ensures Bucket(input, at - p) == Bucket(input, at)
  {
    hide Hash;
    assert Get(input, at) == Get(input, at - p) && Get(input, at + 1) == Get(input, at + 1 - p);
    assert Get(input, at + 2) == Get(input, at + 2 - p);
  }

  lemma {:induction false} AgreementIsFull(input: seq<Byte>, at: nat, q: nat, p: nat, n: nat)
    requires RepeatsFrom(input, q, p) && q <= at && n <= LONGEST_MATCH && at + n <= |input|
    ensures Agreement(input, at - p, at, n) >= Min(LONGEST_MATCH, |input| - at)
    decreases LONGEST_MATCH - n
  {
    if n < LONGEST_MATCH && at + n < |input| {
      assert input[at + n] == input[at + n - p];
      AgreementIsFull(input, at, q, p, n + 1);
    }
  }

  /** How many bytes two positions agree in, up to the longest match. */
  method CommonRun(input: seq<Byte>, start: nat, at: nat) returns (length: nat)
    requires start < at <= |input|
    ensures length == Agreement(input, start, at, 0)
  {
    length := 0;
    hide Agreement;
    while length < LONGEST_MATCH && at + length < |input| && input[start + length] == input[at + length]
      invariant length <= LONGEST_MATCH && at + length <= |input|
      invariant Agreement(input, start, at, length) == Agreement(input, start, at, 0)
    {
      AgreementStep(input, start, at, length);
      length := length + 1;
    }
    AgreementStep(input, start, at, length);
  }

  lemma AgreementStep(input: seq<Byte>, start: nat, at: nat, n: nat)
    requires start < at && n <= LONGEST_MATCH && at + n <= |input|
    ensures if n < LONGEST_MATCH && at + n < |input| && input[start + n] == input[at + n]
            then Agreement(input, start, at, n) == Agreement(input, start, at, n + 1)
            else Agreement(input, start, at, n) == n
  {
  }

  // ----- The fixed codes -----

  function Clip(low: nat, n: nat, high: nat): nat
    requires low <= high
  {
    if n < low then 0 else if n < high then n - low else high - low
  }

  lemma {:induction false} FixedCounts(n: nat, l: nat)
    requires n <= 288
    ensures CountUpTo(FixedLiterals(), n, l) ==
            if l == 7 then Clip(256, n, 280)
            else if l == 8 then Clip(0, n, 144) + Clip(280, n, 288)
            else if l == 9 then Clip(144, n, 256)
            else 0
  {
    if n != 0 {
      FixedCounts(n - 1, l);
    }
  }

  lemma FixedFirsts()
    ensures First(FixedLiterals(), 7) == 0
    ensures First(FixedLiterals(), 8) == 0x30
    ensures First(FixedLiterals(), 9) == 0x190
  {
    NothingBelow(7);
    FixedCounts(288, 7);
    FixedCounts(288, 8);
  }

  lemma {:induction false} NothingBelow(l: nat)
    requires l <= 7
    ensures First(FixedLiterals(), l) == 0
  {
    if l != 0 {
      NothingBelow(l - 1);
      FixedCounts(288, l - 1);
    }
  }

  /** The code the compressor writes for each symbol, as four ranges. */
  function FixedCode(symbol: nat): nat
    requires symbol < 288
  {
    if symbol <= 143 then symbol + 0x30
    else if symbol <= 255 then symbol - 144 + 0x190
    else if symbol <= 279 then symbol - 256
    else symbol - 280 + 0xc0
  }

  /** The four ranges are the canonical code of the fixed code lengths. */
  lemma FixedCodeIsCanonical(symbol: nat)
    requires symbol < 288
    ensures HasCode(FixedLiterals(), symbol) && CodeOf(FixedLiterals(), symbol) == FixedCode(symbol)
    ensures CodeBits(FixedLiterals(), symbol) == MsbBits(FixedCode(symbol), FixedLiteralLength(symbol))
  {
    hide CountUpTo, First;
    FixedFirsts();
    FixedCounts(symbol, FixedLiteralLength(symbol));
    SmallPowers();
    Pow2Of8();
    assert Pow2(9) == 2 * Pow2(8);
  }

  lemma {:induction false} FiveCounts(n: nat, l: nat)
    requires n <= 30
    ensures CountUpTo(FixedDistances(), n, l) == if l == 5 then n else 0
  {
    if n != 0 {
      FiveCounts(n - 1, l);
    }
  }

  lemma {:induction false} NoShortDistances(l: nat)
    requires l <= 5
    ensures First(FixedDistances(), l) == 0
  {
    if l != 0 {
      NoShortDistances(l - 1);
      FiveCounts(30, l - 1);
    }
  }

  /** A fixed distance code is the code number in five bits. */
  lemma DistanceCodeIsCanonical(code: nat)
    requires code < 30
    ensures HasCode(FixedDistances(), code) && CodeBits(FixedDistances(), code) == MsbBits(code, 5)
  {
    hide CountUpTo, First;
    NoShortDistances(5);
    FiveCounts(code, 5);
    SmallPowers();
  }

  /** Writes one symbol with the fixed literal and length tree. */
  method WriteFixed(bits: BitWriter, symbol: nat)
    requires bits.Valid() && symbol < 288
    modifies bits
    ensures bits.Valid() && HasCode(FixedLiterals(), symbol)
    ensures bits.Written() == old(bits.Written()) + CodeBits(FixedLiterals(), symbol)
  {
    hide CodeBits, HasCode, FixedLiterals, MsbBits, BitWriter.Written, BitWriter.Valid;
    FixedCodeIsCanonical(symbol);
    var code: nat, count: nat;
    if symbol <= 143 {
      code, count := symbol + 0x30, 8;
    } else if symbol <= 255 {
      code, count := symbol - 144 + 0x190, 9;
    } else if symbol <= 279 {
      code, count := symbol - 256, 7;
    } else {
      code, count := symbol - 280 + 0xc0, 8;
    }
    assert code == FixedCode(symbol) && count == FixedLiteralLength(symbol);
    bits.PushReversed(code, count);
  }

  /** The base of each length code but the last is within its extra bits of the
      next, and so is each distance code's: the codes leave no gap. */
  lemma LengthCodesLeaveNoGap(code: nat)
    requires code < 28
    ensures LengthBase(code) < LengthBase(code + 1) <= LengthBase(code) + Pow2(LengthExtra(code))
  {
    SmallPowers();
    if code < 14 {
    } else {
    }
  }

  lemma DistanceCodesLeaveNoGap(code: nat)
    requires code < 30
    ensures var next := if code == 29 then WINDOW + 1 else DistanceBase(code + 1);
            DistanceBase(code) < next <= DistanceBase(code) + Pow2(DistanceExtra(code))
  {
    SmallPowers();
    Pow2Of8();
    assert Pow2(10) == 1024 && Pow2(13) == 8192;
  }

  /** The last length code whose base does not exceed a length. */
  method LengthCode(length: nat) returns (code: nat)
    requires SHORTEST_MATCH <= length <= LONGEST_MATCH
    ensures code < 29 && LengthBase(code) <= length < LengthBase(code) + Pow2(LengthExtra(code))
    ensures code == 0 <==> length == SHORTEST_MATCH
    ensures code == 28 <==> length == LONGEST_MATCH
  {
    hide LengthBase, LengthExtra, Pow2;
    LengthEnds();
    code := 0;
    for at := 0 to 29
      invariant code < 29 && LengthBase(code) <= length
      invariant forall k :: code < k < at ==> LengthBase(k) > length
    {
      if LengthBase(at) <= length {
        code := at;
      }
    }
    LengthExtrasAreFew(code);
    if code < 28 {
      LengthCodesLeaveNoGap(code);
    }
  }

  lemma LengthEnds()
    ensures LengthBase(0) == 3 && LengthBase(1) == 4
    ensures LengthBase(28) == 258 && Pow2(LengthExtra(28)) == 1
  {
  }

  lemma DistanceEnds()
    ensures DistanceBase(0) == 1
  {
  }

  /** The last distance code whose base does not exceed a distance. */
  method DistanceCode(distance: nat) returns (code: nat)
    requires 1 <= distance <= WINDOW
    ensures code < 30 && DistanceBase(code) <= distance < DistanceBase(code) + Pow2(DistanceExtra(code))
  {
    hide DistanceBase, DistanceExtra, Pow2;
    DistanceEnds();
    code := 0;
    for at := 0 to 30
      invariant code < 30 && DistanceBase(code) <= distance
      invariant forall k :: code < k < at ==> DistanceBase(k) > distance
    {
      if DistanceBase(at) <= distance {
        code := at;
      }
    }
    DistanceCodesLeaveNoGap(code);
  }

  /** Writes the extra bits of a code, when it has any. */
  method PushExtra(bits: BitWriter, value: nat, extra: nat)
    requires bits.Valid() && value < Pow2(extra)
    modifies bits
    ensures bits.Valid() && bits.Written() == old(bits.Written()) + LsbBits(value, extra)
  {
    if extra > 0 {
      bits.Push(value, extra);
    } else {
      assert bits.Written() + [] == bits.Written();
    }
  }

  ghost predicate FixedEncodable(t: Token) {
    Encodable(FixedLiterals(), FixedDistances(), t)
  }

  ghost function FixedBits(t: Token): seq<Bit>
    requires FixedEncodable(t)
  {
    TokenBits(FixedLiterals(), FixedDistances(), t)
  }

  /** What a match may cost: nine bits a byte covered, and 31 in all; from at most 32
      bytes back, 21, and sixteen when it is as long as a match can be. */
  predicate MatchMayCost(length: nat, distance: nat, bits: nat) {
    && bits <= 9 * length && bits <= 31
    && (distance <= CHAIN_LIMIT ==> bits <= 21)
    && (distance <= CHAIN_LIMIT && length == LONGEST_MATCH ==> bits <= 16)
    && (distance == 1 && length == SHORTEST_MATCH ==> bits <= 12)
  }

  /** Writes one back-reference with the fixed codes. */
  method WriteMatch(bits: BitWriter, length: nat, distance: nat) returns (ghost t: Token)
    requires bits.Valid() && SHORTEST_MATCH <= length <= LONGEST_MATCH && 1 <= distance <= WINDOW
    modifies bits
    ensures bits.Valid() && FixedEncodable(t)
    ensures bits.Written() == old(bits.Written()) + FixedBits(t)
    ensures t.Match? && MatchLength(t) == length && MatchDistance(t) == distance
    ensures MatchMayCost(length, distance, |FixedBits(t)|)
  {
    hide *;
    ShortestMatchIsThree();
    var code := LengthCode(length);
    ghost var was := bits.Written();
    WriteFixed(bits, code + 257);
    PushExtra(bits, length - LengthBase(code), LengthExtra(code));
    var distanceCode := DistanceCode(distance);
    DistanceCodeIsCanonical(distanceCode);
    bits.PushReversed(distanceCode, 5);
    PushExtra(bits, distance - DistanceBase(distanceCode), DistanceExtra(distanceCode));
    t := MatchToken(length, code, distance, distanceCode);
    Regroup4(was, CodeBits(FixedLiterals(), code + 257), LsbBits(t.lengthExtra, LengthExtra(code)),
             CodeBits(FixedDistances(), distanceCode), LsbBits(t.distanceExtra, DistanceExtra(distanceCode)));
    MatchCost(t);
  }

  lemma MatchToken(length: nat, code: nat, distance: nat, distanceCode: nat) returns (t: Token)
    requires code < 29 && LengthBase(code) <= length < LengthBase(code) + Pow2(LengthExtra(code))
    requires distanceCode < 30 && DistanceBase(distanceCode) <= distance < DistanceBase(distanceCode) + Pow2(DistanceExtra(distanceCode))
    requires HasCode(FixedLiterals(), code + 257) && HasCode(FixedDistances(), distanceCode)
    ensures t == Match(code, length - LengthBase(code), distanceCode, distance - DistanceBase(distanceCode))
    ensures FixedEncodable(t) && MatchLength(t) == length && MatchDistance(t) == distance
    ensures FixedBits(t) == CodeBits(FixedLiterals(), code + 257) + LsbBits(t.lengthExtra, LengthExtra(code)) +
                            CodeBits(FixedDistances(), distanceCode) + LsbBits(t.distanceExtra, DistanceExtra(distanceCode))
  {
    hide LengthBase, LengthExtra, DistanceBase, DistanceExtra, CodeBits, HasCode, Pow2;
    t := Match(code, length - LengthBase(code), distanceCode, distance - DistanceBase(distanceCode));
  }

  lemma MatchCost(t: Token)
    requires t.Match? && FixedEncodable(t)
    requires (t.lengthCode == 0 <==> MatchLength(t) == 3) && (t.lengthCode == 28 <==> MatchLength(t) == 258)
    ensures MatchMayCost(MatchLength(t), MatchDistance(t), |FixedBits(t)|)
  {
    hide HasCode, CodeOf, Pow2, LengthBase, LengthExtra, DistanceBase, DistanceExtra;
    assert FixedLiterals()[257 + t.lengthCode] == FixedLiteralLength(257 + t.lengthCode);
    assert FixedDistances()[t.distanceCode] == 5;
    LengthExtrasAreFew(t.lengthCode);
    DistanceExtrasAreFew(t.distanceCode);
  }

  lemma LengthExtrasAreFew(code: nat)
    requires code < 29
    ensures LengthExtra(code) <= 5 && (code == 0 || code == 28 ==> LengthExtra(code) == 0)
    ensures code > 0 ==> LengthBase(code) >= 4
  {
  }

  lemma DistanceExtrasAreFew(code: nat)
    requires code < 30
    ensures DistanceExtra(code) <= 13
    ensures DistanceBase(code) <= 32 ==> DistanceExtra(code) <= 3
    ensures DistanceBase(code) <= 1 ==> DistanceExtra(code) == 0
  {
  }

  // ----- The compressor -----

  /** The tokens written so far stand for the first `at` bytes. */
  ghost predicate Covers(input: seq<Byte>, at: nat, ts: seq<Token>) {
    && at <= |input|
    && AllEncodable(FixedLiterals(), FixedDistances(), ts)
    && Follow([], ts) && Output([], ts) == input[..at]
  }

  ghost function FixedTokensBits(ts: seq<Token>): seq<Bit>
    requires AllEncodable(FixedLiterals(), FixedDistances(), ts)
  {
    TokensBits(FixedLiterals(), FixedDistances(), ts)
  }

  lemma CoversNext(input: seq<Byte>, at: nat, ts: seq<Token>, t: Token, next: nat)
    requires Covers(input, at, ts) && FixedEncodable(t) && at <= next <= |input|
    requires Applies(input[..at], t) && Apply(input[..at], t) == input[..next]
    ensures Covers(input, next, ts + [t])
    ensures FixedTokensBits(ts + [t]) == FixedTokensBits(ts) + FixedBits(t)
  {
    hide Follow, Output, Encodable, TokenBits, TokensBits, FixedLiterals, FixedDistances, Applies, Apply;
    TokensBitsAppend(FixedLiterals(), FixedDistances(), ts, t);
    OutputAppend([], ts, t);
  }

  /** Copying a true match continues the input. */
  lemma MatchContinues(input: seq<Byte>, at: nat, t: Token)
    requires t.Match? && WellFormed(t) && TrueMatch(input, at, MatchLength(t), MatchDistance(t))
    ensures Applies(input[..at], t) && Apply(input[..at], t) == input[..at + MatchLength(t)]
  {
    hide MatchLength, MatchDistance, Apply, Applies, WellFormed, Copied;
    AppliesMatch(input[..at], t);
    CopiedIsUnique(input[..at], MatchDistance(t), input[..at + MatchLength(t)]);
  }

  function Triple(input: seq<Byte>, i: nat): seq<Byte>
    requires i + 3 <= |input|
  {
    input[i..i + 3]
  }

  /** No three bytes of the input occur twice within a window. */
  ghost predicate NoRepeats(input: seq<Byte>) {
    forall i: nat, j: nat :: i < j && j + 3 <= |input| && j - i <= WINDOW ==> Triple(input, i) != Triple(input, j)
  }

  lemma MatchIsARepeat(input: seq<Byte>, at: nat, length: nat, distance: nat)
    requires TrueMatch(input, at, length, distance) && length >= 3
    ensures !NoRepeats(input)
  {
    var i := at - distance;
    assert input[at] == input[i] && input[at + 1] == input[i + 1] && input[at + 2] == input[i + 2];
    assert Triple(input, i) == Triple(input, at);
  }

  /** The header of a final block of fixed codes. */
  ghost function FixedHead(): seq<Bit> {
    LsbBits(1, 1) + LsbBits(1, 2)
  }

  /** What the first `n` bytes cost as literals. */
  function LiteralBits(input: seq<Byte>, n: nat): nat
    requires n <= |input|
  {
    if n == 0 then 0 else LiteralBits(input, n - 1) + FixedLiteralLength(input[n - 1])
  }

  lemma {:induction false} LiteralsCostABit(input: seq<Byte>, n: nat)
    requires n <= |input|
    ensures 8 * n <= LiteralBits(input, n) <= 9 * n
  {
    if n > 0 {
      LiteralsCostABit(input, n - 1);
    }
  }

  /** What the end of an input that repeats itself may cost: a match, or two bytes too few
      for one. */
  function LastCost(n: nat, q: nat): nat {
    if q == 1 && n == 4 then 12 else 21
  }

  /** The most the first `at` bytes cost when the input repeats itself from place `q` on:
      what comes before, a match that leads in, one match for every 258 bytes, and the
      end. */
  function RepeatCost(n: nat, q: nat, at: nat): int
    requires at <= n
  {
    if at <= q then 9 * at
    else
      9 * q + (if q == 1 then 0 else 22) + 16 * ((at - q) / LONGEST_MATCH)
      + if n - at >= 3 then 0 else LastCost(n, q) - 9 * (n - at)
  }

  ghost predicate Cheap(input: seq<Byte>, at: nat, cost: nat)
    requires at <= |input|
  {
    |input| < NONE ==> forall q: nat, p: nat :: RepeatsFrom(input, q, p) ==> cost <= RepeatCost(|input|, q, at)
  }

  /** What the compressor keeps from turn to turn: the tokens stand for the bytes
      behind it, their bits are written, and they cost nine bits a byte at most,
      exactly what literals cost while nothing repeats, and little once everything
      does. */
  ghost predicate Progress(input: seq<Byte>, at: nat, ts: seq<Token>, written: seq<Bit>) {
    && Covers(input, at, ts)
    && written == FixedHead() + FixedTokensBits(ts)
    && |FixedTokensBits(ts)| <= 9 * at
    && (NoRepeats(input) ==> |FixedTokensBits(ts)| == LiteralBits(input, at))
    && Cheap(input, at, |FixedTokensBits(ts)|)
  }

  /** Whether the match found is the longest there can be, and no further back than it has
      to be, wherever the input repeats itself. */
  ghost predicate IsLong(input: seq<Byte>, at: nat, length: nat, distance: nat)
    requires at <= |input|
  {
    |input| < NONE && at + 3 <= |input| ==>
      forall q: nat, p: nat :: RepeatsFrom(input, q, p) && q <= at ==>
                                 length >= Min(LONGEST_MATCH, |input| - at) && distance <= p
  }

  lemma CheapLiteral(input: seq<Byte>, at: nat, cost: nat, length: nat, distance: nat, bits: nat)
    requires at < |input| && Cheap(input, at, cost) && IsLong(input, at, length, distance) && length < 3 && bits <= 9
    ensures Cheap(input, at + 1, cost + bits)
  {
    if |input| < NONE {
      forall q: nat, p: nat | RepeatsFrom(input, q, p) ensures cost + bits <= RepeatCost(|input|, q, at + 1) {
        assert cost <= RepeatCost(|input|, q, at);
      }
    }
  }

  lemma CheapMatch(input: seq<Byte>, at: nat, cost: nat, length: nat, distance: nat, bits: nat)
    requires at + length <= |input| && Cheap(input, at, cost) && IsLong(input, at, length, distance)
    requires 3 <= length <= LONGEST_MATCH && 1 <= distance <= at && MatchMayCost(length, distance, bits)
    ensures Cheap(input, at + length, cost + bits)
  {
    if |input| < NONE {
      forall q: nat, p: nat | RepeatsFrom(input, q, p) ensures cost + bits <= RepeatCost(|input|, q, at + length) {
        assert cost <= RepeatCost(|input|, q, at);
        MatchRepeatCost(|input|, q, at, length, distance, bits);
      }
    }
  }

  lemma MatchRepeatCost(n: nat, q: nat, at: nat, length: nat, distance: nat, bits: nat)
    requires at + length <= n && 3 <= length <= LONGEST_MATCH && q >= 1
    requires 1 <= distance <= at && MatchMayCost(length, distance, bits)
    requires q <= at ==> length >= Min(LONGEST_MATCH, n - at) && distance <= CHAIN_LIMIT
    ensures RepeatCost(n, q, at) + bits <= RepeatCost(n, q, at + length)
  {
    if at > q && length == LONGEST_MATCH {
      assert (at + 258 - q) / 258 == (at - q) / 258 + 1;
    }
  }

  lemma ProgressStart(input: seq<Byte>)
    ensures Progress(input, 0, [], FixedHead())
  {
    assert FixedHead() + [] == FixedHead();
  }

  lemma ProgressLiteral(input: seq<Byte>, at: nat, ts: seq<Token>, written: seq<Bit>, length: nat, distance: nat)
    requires Progress(input, at, ts, written) && at < |input| && IsLong(input, at, length, distance) && length < 3
    ensures Progress(input, at + 1, ts + [Literal(input[at])], written + CodeBits(FixedLiterals(), input[at]))
  {
    hide HasCode, CodeOf, FixedLiterals, FixedLiteralLength, Follow, Output, AllEncodable, NoRepeats, FixedTokensBits, Cheap, IsLong;
    var t := Literal(input[at]);
    FixedCodeIsCanonical(input[at]);
    LiteralCost(input[at]);
    CheapLiteral(input, at, |FixedTokensBits(ts)|, length, distance, FixedLiteralLength(input[at]));
    AppliesLiteral(input[..at], input[at]);
    assert input[..at + 1] == input[..at] + [input[at]];
    CoversNext(input, at, ts, t, at + 1);
    Regroup2(FixedHead(), FixedTokensBits(ts), FixedBits(t));
  }

  lemma LiteralCost(b: Byte)
    ensures |CodeBits(FixedLiterals(), b)| == FixedLiteralLength(b)
    ensures 8 <= FixedLiteralLength(b) <= 9
  {
    hide CodeOf;
  }

  lemma ProgressMatch(input: seq<Byte>, at: nat, ts: seq<Token>, written: seq<Bit>, t: Token)
    requires Progress(input, at, ts, written) && FixedEncodable(t) && t.Match?
    requires TrueMatch(input, at, MatchLength(t), MatchDistance(t))
    requires 3 <= MatchLength(t) <= LONGEST_MATCH && IsLong(input, at, MatchLength(t), MatchDistance(t))
    requires MatchMayCost(MatchLength(t), MatchDistance(t), |FixedBits(t)|)
    ensures Progress(input, at + MatchLength(t), ts + [t], written + FixedBits(t))
  {
    hide HasCode, FixedLiterals, FixedDistances, Follow, Output, AllEncodable, NoRepeats, MatchLength, MatchDistance, TokenBits, FixedTokensBits, Applies, Apply, WellFormed, FixedHead, Cheap, IsLong;
    MatchContinues(input, at, t);
    CheapMatch(input, at, |FixedTokensBits(ts)|, MatchLength(t), MatchDistance(t), |FixedBits(t)|);
    MatchIsARepeat(input, at, MatchLength(t), MatchDistance(t));
    CoversNext(input, at, ts, t, at + MatchLength(t));
    Regroup2(FixedHead(), FixedTokensBits(ts), FixedBits(t));
  }

  /** With the end of the block written, the bits are those of one final block. */
  lemma ProgressEnd(input: seq<Byte>, ts: seq<Token>, written: seq<Bit>)
    requires Progress(input, |input|, ts, written)
    ensures HasCode(FixedLiterals(), END_OF_BLOCK) && StreamValid([Fixed(ts)], 0)
    ensures written + CodeBits(FixedLiterals(), END_OF_BLOCK) == BlocksBits([Fixed(ts)], 0)
    ensures |written| == 3 + |FixedTokensBits(ts)| && |CodeBits(FixedLiterals(), END_OF_BLOCK)| == 7
    ensures StreamFollows([], [Fixed(ts)]) && StreamOutput([], [Fixed(ts)]) == input
  {
    hide CodeOf, FixedDistances, NoRepeats, Encodable, TokensBits, Follow, Output, LsbBits;
    FixedCodeIsCanonical(END_OF_BLOCK);
    assert [Fixed(ts)][1..] == [];
    assert input[..|input|] == input;
    Regroup2(FixedHead(), FixedTokensBits(ts), CodeBits(FixedLiterals(), END_OF_BLOCK));
    assert StreamFollows(Output([], ts), []);
  }

  /** Returns the input as a raw DEFLATE stream: one final block of fixed codes
      whose tokens stand for the input, padded with zeroes to whole bytes. The
      stream is never longer than nine bits a byte and ten more; on an input
      without repeats it is exactly what literals cost, which is always longer than
      the input; and where the input comes to repeat itself it is short. */
  method DeflateBytes(input: seq<Byte>) returns (stream: seq<Byte>, ghost tokens: seq<Token>)
    ensures StreamValid([Fixed(tokens)], 0)
    ensures BlocksBits([Fixed(tokens)], 0) <= StreamBits(stream)
    ensures |stream| == (|BlocksBits([Fixed(tokens)], 0)| + 7) / 8
    ensures StreamFollows([], [Fixed(tokens)]) && StreamOutput([], [Fixed(tokens)]) == input
    ensures 8 * |stream| <= 9 * |input| + 17
    ensures NoRepeats(input) ==> |stream| == (LiteralBits(input, |input|) + 17) / 8 >= |input| + 2
    ensures |input| < NONE ==> forall q: nat, p: nat :: RepeatsFrom(input, q, p) ==>
                                 8 * |stream| <= RepeatCost(|input|, q, |input|) + 17
  {
    hide *;
    ShortestMatchIsThree();
    var bits := new BitWriter();
    bits.Push(1, 1);
    bits.Push(1, 2);
    HeadWritten(bits.Written());
    tokens := [];
    ProgressStart(input);
    var chains := new Chains(input);
    ChainsStart(chains, input);
    var at: nat := 0;
    while at < |input|
      invariant at <= |input|
      invariant bits.Valid() && fresh(bits) && chains.Valid() && fresh(chains.head) && fresh(chains.previous)
      invariant Progress(input, at, tokens, bits.Written())
      invariant chains.Complete(input, at)
    {
      ghost var was := bits.Written();
      var length, distance := chains.Longest(input, at);
      LongestIsLong(chains, input, at, length, distance);
      if length >= SHORTEST_MATCH {
        MatchBounds(input, at, length, distance);
        ghost var t := WriteMatch(bits, length, distance);
        ProgressMatch(input, at, tokens, was, t);
        tokens := tokens + [t];
        for step := 0 to length
          invariant chains.Valid() && bits.Valid()
          invariant bits.Written() == was + FixedBits(t)
          invariant chains.Complete(input, at + step)
        {
          InsertNext(chains, input, at + step);
        }
        at := at + length;
      } else {
        ProgressLiteral(input, at, tokens, was, length, distance);
        WriteFixed(bits, input[at]);
        tokens := tokens + [Literal(input[at])];
        InsertNext(chains, input, at);
        at := at + 1;
      }
    }
    ProgressEnd(input, tokens, bits.Written());
    ghost var cost := ProgressCost(input, tokens, bits.Written());
    WriteFixed(bits, END_OF_BLOCK);
    stream := bits.Finish();
    StreamCost(input, |stream|, cost);
  }

  lemma StreamCost(input: seq<Byte>, size: nat, cost: nat)
    requires Cheap(input, |input|, cost) && size == (cost + 17) / 8
    ensures |input| < NONE ==> forall q: nat, p: nat :: RepeatsFrom(input, q, p) ==>
                                 8 * size <= RepeatCost(|input|, q, |input|) + 17
  {
    hide RepeatCost;
  }

  lemma ChainsStart(chains: Chains, input: seq<Byte>)
    requires chains.Valid() && chains.previous.Length == |input| + 1
    requires forall k :: 0 <= k < BUCKETS ==> chains.head[k] == NONE
    ensures chains.Complete(input, 0)
  {
    LinkedAtFirst(chains.head[..], chains.previous[..], input);
  }

  /** Inserting a position keeps the chains complete up to it. */
  method InsertNext(chains: Chains, input: seq<Byte>, at: nat)
    requires chains.Valid() && chains.Complete(input, at) && at < |input|
    modifies chains.head, chains.previous
    ensures chains.Complete(input, at + 1)
  {
    hide Bucket, Linked;
    LinkedNext(chains.head[..], chains.previous[..], input, at);
    chains.Insert(input, at);
    if |input| >= NONE {
      LinkedAnyhow(chains.head[..], chains.previous[..], input, at + 1);
    }
  }

  /** Nothing is asked of the chains of an input whose positions no longer fit. */
  lemma LinkedAnyhow(heads: seq<U32>, links: seq<U32>, input: seq<Byte>, at: nat)
    requires |input| >= NONE
    ensures Linked(heads, links, input, at)
  {
  }

  lemma LongestIsLong(chains: Chains, input: seq<Byte>, at: nat, length: nat, distance: nat)
    requires chains.Valid() && chains.Complete(input, at) && at <= |input|
    requires at + SHORTEST_MATCH <= |input| ==>
               forall k :: 0 <= k < CHAIN_LIMIT && chains.Reached(Bucket(input, at), at, k) ==>
                             Agreement(input, chains.Offer(Bucket(input, at), k), at, 0) <= length
    requires at + SHORTEST_MATCH <= |input| && length > 0 ==>
               exists k: nat :: k < CHAIN_LIMIT && chains.Offers(input, at, k, length, distance)
                                && chains.Shorter(input, at, k, length)
    ensures IsLong(input, at, length, distance)
  {
    hide Bucket, Chains.Complete, Agreement, Chains.Reached, Chains.Offer, RepeatsFrom, Chains.Offers, Chains.Shorter;
    if |input| < NONE && at + 3 <= |input| {
      forall q: nat, p: nat | RepeatsFrom(input, q, p) && q <= at
        ensures length >= Min(LONGEST_MATCH, |input| - at) && distance <= p
      {
        chains.RepeatIsFound(input, at, length, distance, q, p);
      }
    }
  }

  /** An input that repeats itself, at a distance of at most 32, from place `q` on for an
      eighth of what comes before and ten bytes more is not made larger. */
  method DeflateRepeats(input: seq<Byte>, ghost q: nat, ghost p: nat) returns (stream: seq<Byte>)
    requires RepeatsFrom(input, q, p) && |input| < NONE && q < |input|
    requires q + 60 + 16 * ((|input| - q) / LONGEST_MATCH) <= 8 * (|input| - q)
    ensures |stream| <= |input|
    ensures 8 * |stream| <= 9 * q + 60 + 16 * ((|input| - q) / LONGEST_MATCH)
  {
    ghost var tokens: seq<Token>;
    stream, tokens := DeflateBytes(input);
  }

  /** No input of three bytes or fewer has a repeat, so all of them are made larger. */
  method DeflateFew(input: seq<Byte>) returns (stream: seq<Byte>)
    requires |input| <= 3
    ensures |stream| == (LiteralBits(input, |input|) + 17) / 8 > |input|
  {
    ghost var tokens: seq<Token>;
    stream, tokens := DeflateBytes(input);
  }

  /** Equal bytes are made larger exactly when there are fewer than four. */
  method DeflateEqual(input: seq<Byte>) returns (stream: seq<Byte>)
    requires RepeatsFrom(input, 1, 1) && |input| < NONE
    ensures |stream| > |input| <==> |input| < 4
    ensures |input| >= 4 ==> 8 * |stream| <= 47 + 16 * ((|input| - 1) / LONGEST_MATCH)
  {
    hide *;
    ghost var tokens: seq<Token>;
    stream, tokens := DeflateBytes(input);
    if |input| < 4 {
      FewHaveNoRepeats(input);
    } else {
      EqualBytesAreCheap(|input|, |stream|);
    }
  }

  lemma FewHaveNoRepeats(input: seq<Byte>)
    requires |input| <= 3
    ensures NoRepeats(input)
  {
  }

  lemma EqualBytesAreCheap(n: nat, size: nat)
    requires n >= 4 && 8 * size <= RepeatCost(n, 1, n) + 17
    ensures size <= n && 8 * size <= 47 + 16 * ((n - 1) / LONGEST_MATCH)
  {
    assert 16 * ((n - 1) / 258) <= n - 1;
  }

  lemma ShortestMatchIsThree()
    ensures SHORTEST_MATCH == 3 && LONGEST_MATCH == 258 && END_OF_BLOCK == 256
  {
  }

  lemma MatchBounds(input: seq<Byte>, at: nat, length: nat, distance: nat)
    requires TrueMatch(input, at, length, distance)
    ensures length <= LONGEST_MATCH && 1 <= distance <= WINDOW && at + length <= |input|
  {
  }

  lemma HeadWritten(written: seq<Bit>)
    requires written == [] + LsbBits(1, 1) + LsbBits(1, 2)
    ensures written == FixedHead()
  {
  }

  lemma ProgressCost(input: seq<Byte>, ts: seq<Token>, written: seq<Bit>) returns (cost: nat)
    requires Progress(input, |input|, ts, written)
    ensures |written| == 3 + cost && cost <= 9 * |input|
    ensures NoRepeats(input) ==> cost == LiteralBits(input, |input|) >= 8 * |input|
    ensures Cheap(input, |input|, cost)
  {
    hide Cheap, FixedTokensBits, NoRepeats, AllEncodable, Follow, Output;
    cost := |FixedTokensBits(ts)|;
    LiteralsCostABit(input, |input|);
  }
}
