/** The zlib wrapper: two header bytes, a DEFLATE stream and an Adler-32
    checksum (RFC 1950), and the round trips of both codecs. */
module Zlib {
  import opened Bits
  import opened BitStreams
  import opened DeflateFormat
  import opened Huffman
  import opened InflateSpec
  import opened Inflater
  import opened Deflater
  import opened Wrappers

  // ----- Adler-32 -----

  const ADLER_BASE := 65521

  /** One more than the sum of the bytes. */
  function S1(data: seq<Byte>): nat {
    if data == [] then 1 else S1(data[..|data| - 1]) + data[|data| - 1]
  }

  /** The sum of the first sums of every non-empty prefix. */
  function S2(data: seq<Byte>): nat {
    if data == [] then 0 else S2(data[..|data| - 1]) + S1(data)
  }

  /** The checksum as section 8.2 of RFC 1950 defines it: both sums reduced. */
  function Adler(data: seq<Byte>): (sum: nat)
    ensures sum < 0x1_0000_0000
  {
    (S2(data) % ADLER_BASE) * 0x1_0000 + S1(data) % ADLER_BASE
  }

  lemma ModOfSum(a: nat, b: nat)
    ensures (a % ADLER_BASE + b) % ADLER_BASE == (a + b) % ADLER_BASE
    ensures (b + a % ADLER_BASE) % ADLER_BASE == (b + a) % ADLER_BASE
  {
  }

  /** Reducing after every byte gives the same checksum. */
  method Adler32(data: seq<Byte>) returns (sum: nat)
    ensures sum == Adler(data)
  {
    var low: nat := 1;
    var high: nat := 0;
    for at := 0 to |data|
      invariant low == S1(data[..at]) % ADLER_BASE
      invariant high == S2(data[..at]) % ADLER_BASE
    {
      assert data[..at + 1][..at] == data[..at];
      ModOfSum(S1(data[..at]), data[at]);
      low := (low + data[at]) % ADLER_BASE;
      ModOfSum(S2(data[..at]), low);
      ModOfSum(S1(data[..at + 1]), S2(data[..at]));
      high := (high + low) % ADLER_BASE;
    }
    assert data[..|data|] == data;
    sum := high * 0x1_0000 + low;
  }

  lemma {:induction false} S1OfChange(data: seq<Byte>, at: nat, b: Byte)
    requires at < |data|
    ensures S1(data[at := b]) == S1(data) - data[at] + b
  {
    var last := |data| - 1;
    if at < last {
      S1OfChange(data[..last], at, b);
      assert data[at := b][..last] == data[..last][at := b];
    } else {
      assert data[at := b][..last] == data[..last];
    }
  }

  /** A single changed byte always changes the checksum. */
  lemma AdlerSeesOneByte(data: seq<Byte>, at: nat, b: Byte)
    requires at < |data| && b != data[at]
    ensures Adler(data[at := b]) != Adler(data)
  {
    S1OfChange(data, at, b);
    NearbyResiduesDiffer(S1(data), S1(data[at := b]));
  }

  lemma NearbyResiduesDiffer(x: nat, y: nat)
    requires x != y && -ADLER_BASE < x - y < ADLER_BASE
    ensures x % ADLER_BASE != y % ADLER_BASE
  {
  }

  // ----- The raw codec -----

  /** Whatever bytes follow it, a stream of blocks for `data` inflates to it. */
  lemma StreamInflates(blocks: seq<Block>, stream: seq<Byte>, data: seq<Byte>, more: seq<Byte>)
    requires StreamValid(blocks, 0) && BlocksBits(blocks, 0) <= StreamBits(stream)
    requires StreamFollows([], blocks) && StreamOutput([], blocks) == data
    ensures Inflate(StreamBits(stream + more)) == Ok(data)
  {
    hide StreamValid, BlocksBits, StreamFollows, StreamOutput, StreamBits, Inflate;
    var s, rest := StreamBits(stream), StreamBits(stream)[|BlocksBits(blocks, 0)|..];
    assert s == BlocksBits(blocks, 0) + rest;
    assert IsDeflateOf(blocks, s, data, rest);
    InflateIsTheFormat(s, data);
    StreamBitsConcat(stream, more);
    InflateIsPrefixStable(s, StreamBits(more));
  }

  /** What is deflated inflates to itself, for every input. */
  method RoundTrip(data: seq<Byte>) returns (stream: seq<Byte>, r: Result<seq<Byte>, Fault>)
    ensures r == Ok(data)
    ensures 8 * |stream| <= 9 * |data| + 17
  {
    hide *;
    ghost var tokens;
    stream, tokens := DeflateBytes(data);
    StreamInflates([Fixed(tokens)], stream, data, []);
    assert stream + [] == stream;
    r := InflateBytes(stream);
  }

  // ----- The wrapper -----

  function BigEndian(v: nat): (bytes: seq<Byte>)
    requires v < 0x1_0000_0000
    ensures |bytes| == 4
  {
    [v / 256 / 256 / 256, v / 256 / 256 % 256, v / 256 % 256, v % 256]
  }

  function Wider(high: nat, low: nat): nat {
    256 * high + low
  }

  function FromBigEndian(bytes: seq<Byte>): nat
    requires |bytes| == 4
  {
    Wider(Wider(Wider(bytes[0], bytes[1]), bytes[2]), bytes[3])
  }

  lemma WiderOfHalves(v: nat)
    ensures Wider(v / 256, v % 256) == v
  {
  }

  lemma BigEndianRoundTrip(v: nat)
    requires v < 0x1_0000_0000
    ensures FromBigEndian(BigEndian(v)) == v
  {
    hide Wider;
    WiderOfHalves(v);
    WiderOfHalves(v / 256);
    WiderOfHalves(v / 256 / 256);
  }

  lemma BigEndianInjective(a: seq<Byte>, b: seq<Byte>)
    requires |a| == |b| == 4 && FromBigEndian(a) == FromBigEndian(b)
    ensures a == b
  {
    hide Wider;
    WiderInjective(Wider(Wider(a[0], a[1]), a[2]), a[3], Wider(Wider(b[0], b[1]), b[2]), b[3]);
    WiderInjective(Wider(a[0], a[1]), a[2], Wider(b[0], b[1]), b[2]);
    WiderInjective(a[0], a[1], b[0], b[1]);
  }

  lemma WiderInjective(h: nat, l: nat, h': nat, l': nat)
    requires l < 256 && l' < 256 && Wider(h, l) == Wider(h', l')
    ensures h == h' && l == l'
  {
  }

  /** What is wrong with the two header bytes, if anything. */
  function HeaderFault(input: seq<Byte>): (fault: Result<(), Fault>) {
    if |input| < 2 then Err(ZlibTooShort)
    else if input[0] % 16 != 8 then Err(ZlibNotDeflate)
    else if Wider(input[0], input[1]) % 31 != 0 then Err(ZlibHeaderCheck)
    else if input[1] / 32 % 2 != 0 then Err(ZlibDictionary)
    else Ok(())
  }

  ghost function Unwrapped(input: seq<Byte>): Result<seq<Byte>, Fault> {
    if HeaderFault(input).Err? then Err(HeaderFault(input).fault)
    else
      match Inflate(StreamBits(input[2..]))
      case Err(fault) => Err(fault)
      case Ok(out) =>
        if |input| > 6 && FromBigEndian(input[|input| - 4..]) != Adler(out) then Err(ZlibChecksum) else Ok(out)
  }

  /** A body that inflates has two bytes at least, so a tail of four exists. */
  lemma AcceptedBodyIsLong(body: seq<Byte>)
    requires Inflate(StreamBits(body)).Ok?
    ensures |body| >= 2
  {
    hide Inflate, StreamBits;
    NothingShortIsAccepted(StreamBits(body));
  }

  /** Returns a zlib stream decompressed, checking its header and, when the
      stream is long enough to hold one, its checksum. */
  method Decompress(input: seq<Byte>) returns (r: Result<seq<Byte>, Fault>)
    ensures r == Unwrapped(input)
  {
    hide Inflate, StreamBits, Adler, FromBigEndian;
    if |input| < 2 {
      return Err(ZlibTooShort);
    }
    var first, second := input[0], input[1];
    if first % 16 != 8 {
      return Err(ZlibNotDeflate);
    }
    if Wider(first, second) % 31 != 0 {
      return Err(ZlibHeaderCheck);
    }
    if second / 32 % 2 != 0 {
      return Err(ZlibDictionary);
    }
    var out :- InflateBytes(input[2..]);
    AcceptedBodyIsLong(input[2..]);
    var tail := input[|input| - 4..];
    var found := Adler32(out);
    if FromBigEndian(tail) != found && |input| > 6 {
      return Err(ZlibChecksum);
    }
    return Ok(out);
  }

  /** Returns the input as a zlib stream. */
  method Compress(input: seq<Byte>) returns (out: seq<Byte>, ghost body: seq<Byte>)
    ensures out == [0x78, 0x9c] + body + BigEndian(Adler(input))
    ensures forall more :: Inflate(StreamBits(body + more)) == Ok(input)
    ensures 8 * |out| <= 9 * |input| + 65
  {
    hide *;
    var stream, tokens := DeflateBytes(input);
    forall more
      ensures Inflate(StreamBits(stream + more)) == Ok(input)
    {
      StreamInflates([Fixed(tokens)], stream, input, more);
    }
    var sum := Adler32(input);
    out := [0x78, 0x9c] + stream + BigEndian(sum);
    body := stream;
  }

  /** Which tails a compressed stream may be given. */
  lemma WrappedUnwraps(data: seq<Byte>, body: seq<Byte>, tail: seq<Byte>)
    requires Inflate(StreamBits(body + tail)) == Ok(data) && Inflate(StreamBits(body)).Ok? && |tail| == 4
    ensures Unwrapped([0x78, 0x9c] + body + tail) ==
            if tail == BigEndian(Adler(data)) then Ok(data) else Err(ZlibChecksum)
  {
    hide Inflate, StreamBits, Adler, FromBigEndian, BigEndian;
    var input := [0x78, 0x9c] + body + tail;
    assert input[2..] == body + tail;
    assert input[|input| - 4..] == tail;
    AcceptedBodyIsLong(body);
    BigEndianRoundTrip(Adler(data));
    if FromBigEndian(tail) == Adler(data) {
      BigEndianInjective(tail, BigEndian(Adler(data)));
    }
  }

  /** A header and an accepted body, followed by nothing, by part of a checksum, or by
      anything else, are accepted exactly when no more than four bytes come after the
      header or the last four of them are the data's checksum. */
  lemma CutShortExactly(front: seq<Byte>, body: seq<Byte>, part: seq<Byte>, data: seq<Byte>)
    requires |front| == 2 && HeaderFault(front).Ok? && Inflate(StreamBits(body)) == Ok(data)
    ensures var after := body + part;
            Unwrapped(front + after) ==
            if |after| <= 4 || after[|after| - 4..] == BigEndian(Adler(data)) then Ok(data) else Err(ZlibChecksum)
  {
    hide Inflate, StreamBits, Adler, FromBigEndian, BigEndian;
    var after := body + part;
    var input := front + after;
    assert input[2..] == after && input[0] == front[0] && input[1] == front[1];
    StreamBitsConcat(body, part);
    InflateIsPrefixStable(StreamBits(body), StreamBits(part));
    if |after| > 4 {
      assert input[|input| - 4..] == after[|after| - 4..];
      BigEndianRoundTrip(Adler(data));
      if FromBigEndian(after[|after| - 4..]) == Adler(data) {
        BigEndianInjective(after[|after| - 4..], BigEndian(Adler(data)));
      }
    }
  }

  function ZeroLiteral(): seq<Bit> {
    [0, 0, 1, 1, 0, 0, 0, 0]
  }

  /** The number whose bits, lowest first, are these. */
  function Eight(a: int, b: int, c: int, d: int, e: int, f: int, g: int, h: int): int {
    a + 2 * b + 4 * c + 8 * d + 16 * e + 32 * f + 64 * g + 128 * h
  }

  lemma EightLsb(s: seq<Bit>)
    requires |s| == 8
    ensures 0 <= Eight(s[0], s[1], s[2], s[3], s[4], s[5], s[6], s[7]) < 256
    ensures LsbBits(Eight(s[0], s[1], s[2], s[3], s[4], s[5], s[6], s[7]), 8) == s
  {
    hide LsbBits, LsbValue;
    LsbOfTwo(s, 0);
    LsbOfTwo(s, 2);
    LsbOfTwo(s, 4);
    LsbOfTwo(s, 6);
    NoValue();
    assert s[0..] == s && s[8..] == [];
    LsbBitsOfValue(s);
  }

  lemma EightMsb(s: seq<Bit>)
    requires |s| == 8
    ensures 0 <= Eight(s[7], s[6], s[5], s[4], s[3], s[2], s[1], s[0]) < 256
    ensures MsbBits(Eight(s[7], s[6], s[5], s[4], s[3], s[2], s[1], s[0]), 8) == s
  {
    hide MsbBits, MsbValue;
    MsbOfTwo(s, 2);
    MsbOfTwo(s, 4);
    MsbOfTwo(s, 6);
    MsbOfTwo(s, 8);
    NoValue();
    assert s[..8] == s && s[..0] == [];
    MsbBitsOfValue(s);
  }

  lemma NoValue()
    ensures LsbValue([]) == 0 && MsbValue([]) == 0
  {
  }

  lemma LsbOfTwo(s: seq<Bit>, k: nat)
    requires k + 2 <= |s|
    ensures LsbValue(s[k..]) == s[k] + 2 * s[k + 1] + 4 * LsbValue(s[k + 2..])
  {
    assert s[k..][1..] == s[k + 1..] && s[k + 1..][1..] == s[k + 2..];
  }

  lemma MsbOfTwo(s: seq<Bit>, k: nat)
    requires 2 <= k <= |s|
    ensures MsbValue(s[..k]) == s[k - 1] + 2 * s[k - 2] + 4 * MsbValue(s[..k - 2])
  {
    assert s[..k][..k - 1] == s[..k - 1] && s[..k - 1][..k - 2] == s[..k - 2];
  }

  lemma ZeroCodes()
    ensures HasCode(FixedLiterals(), 0) && CodeBits(FixedLiterals(), 0) == ZeroLiteral()
    ensures HasCode(FixedLiterals(), END_OF_BLOCK) && CodeBits(FixedLiterals(), END_OF_BLOCK) == [0, 0, 0, 0, 0, 0, 0]
    ensures LsbBits(1, 1) + LsbBits(1, 2) == [1, 1, 0]
  {
    hide HasCode, CodeBits, FixedLiterals, MsbBits;
    FixedCodeIsCanonical(0);
    FixedCodeIsCanonical(END_OF_BLOCK);
    EightMsb(ZeroLiteral());
    var zeroes: seq<Bit> := [0, 0, 0, 0, 0, 0, 0];
    MsbBitsOfValue(zeroes);
    ZeroesAreZero(zeroes);
  }

  lemma {:induction false} ZeroesAreZero(s: seq<Bit>)
    requires forall i :: 0 <= i < |s| ==> s[i] == 0
    ensures MsbValue(s) == 0
  {
    if s != [] {
      ZeroesAreZero(s[..|s| - 1]);
    }
  }

  lemma Regrouped(a: seq<Bit>, l: seq<Bit>, r: seq<Bit>, e: seq<Bit>, f: seq<Bit>)
    ensures a + (l + r) + (l + r) + (l + r) + e + f == (a + l) + (r + l) + (r + l) + (r + (e + f))
  {
  }

  lemma BytesOfThreeZeroes()
    ensures LsbBits(0x63, 8) == [1, 1, 0, 0, 0, 1, 1, 0]
    ensures LsbBits(0x60, 8) == [0, 0, 0, 0, 0, 1, 1, 0]
    ensures LsbBits(0, 8) == [0, 0, 0, 0, 0, 0, 0, 0]
  {
    hide LsbBits, MsbBits;
    EightLsb([1, 1, 0, 0, 0, 1, 1, 0]);
    EightLsb([0, 0, 0, 0, 0, 1, 1, 0]);
    EightLsb([0, 0, 0, 0, 0, 0, 0, 0]);
  }

  lemma BodyOfThreeZeroes()
    ensures StreamBits([0x63, 0x60, 0x60, 0, 0])
         == [1, 1, 0] + ZeroLiteral() + ZeroLiteral() + ZeroLiteral() + [0, 0, 0, 0, 0, 0, 0] + [0, 0, 0, 0, 0, 0]
  {
    hide LsbBits, StreamBits;
    BytesOfThreeZeroes();
    FiveBytes(0x63, 0x60, 0x60, 0, 0);
    var l, r, e, f := [0, 0, 1, 1, 0], [0, 0, 0], [0, 0, 0, 0, 0, 0, 0], [0, 0, 0, 0, 0, 0];
    Regrouped([1, 1, 0], l, r, e, f);
    assert l + r == ZeroLiteral() && [1, 1, 0] + l == LsbBits(0x63, 8) && r + l == LsbBits(0x60, 8);
    TwoZeroBytes(r + (e + f));
  }

  lemma TwoZeroBytes(s: seq<Bit>)
    requires |s| == 16 && forall i :: 0 <= i < 16 ==> s[i] == 0
    ensures s == LsbBits(0, 8) + LsbBits(0, 8)
  {
    hide LsbBits;
    BytesOfThreeZeroes();
  }

  lemma FiveBytes(a: Byte, b: Byte, c: Byte, d: Byte, e: Byte)
    ensures StreamBits([a, b, c, d, e]) == LsbBits(a, 8) + LsbBits(b, 8) + LsbBits(c, 8) + LsbBits(d, 8) + LsbBits(e, 8)
  {
    hide LsbBits;
    assert [a, b, c, d, e][1..] == [b, c, d, e] && [b, c, d, e][1..] == [c, d, e];
    assert [c, d, e][1..] == [d, e] && [d, e][1..] == [e] && [e][1..] == [];
    assert StreamBits([d, e]) == LsbBits(d, 8) + LsbBits(e, 8);
    assert StreamBits([c, d, e]) == LsbBits(c, 8) + LsbBits(d, 8) + LsbBits(e, 8);
  }

  lemma {:induction false} LiteralsFollow(out: seq<Byte>, data: seq<Byte>, ts: seq<Token>)
    requires |ts| == |data| && forall i :: 0 <= i < |ts| ==> ts[i] == Literal(data[i])
    ensures Follow(out, ts) && Output(out, ts) == out + data
    decreases |ts|
  {
    hide Apply, Applies;
    if ts == [] {
      assert out + data == out;
    } else {
      AppliesLiteral(out, data[0]);
      LiteralsFollow(out + [data[0]], data[1..], ts[1..]);
      assert out + [data[0]] + data[1..] == out + data;
    }
  }

  lemma ThreeLiterals(t: Token)
    requires Encodable(FixedLiterals(), FixedDistances(), t)
    ensures AllEncodable(FixedLiterals(), FixedDistances(), [t, t, t])
    ensures var bits := TokenBits(FixedLiterals(), FixedDistances(), t);
            TokensBits(FixedLiterals(), FixedDistances(), [t, t, t]) == bits + bits + bits
  {
    hide Encodable, TokenBits, FixedLiterals, FixedDistances;
    assert [] + [t] == [t] && [t] + [t] == [t, t] && [t, t] + [t] == [t, t, t];
    TokensBitsAppend(FixedLiterals(), FixedDistances(), [], t);
    TokensBitsAppend(FixedLiterals(), FixedDistances(), [t], t);
    TokensBitsAppend(FixedLiterals(), FixedDistances(), [t, t], t);
  }

  lemma OneFixedBlock(ts: seq<Token>, s: seq<Bit>, tail: seq<Bit>)
    requires CompressedValid(FixedLiterals(), FixedDistances(), ts) && Follow([], ts)
    requires s == LsbBits(1, 1) + LsbBits(1, 2) + CompressedBits(FixedLiterals(), FixedDistances(), ts) + tail
    ensures StreamValid([Fixed(ts)], 0) && BlocksBits([Fixed(ts)], 0) <= s
    ensures StreamFollows([], [Fixed(ts)]) && StreamOutput([], [Fixed(ts)]) == Output([], ts)
  {
    hide CompressedValid, CompressedBits, Follow, Output, LsbBits, FixedLiterals, FixedDistances;
    assert [Fixed(ts)][1..] == [];
    assert StreamFollows(Output([], ts), []);
  }

  lemma ThreeZeroes(ts: seq<Token>)
    requires ts == [Literal(0), Literal(0), Literal(0)]
    ensures StreamValid([Fixed(ts)], 0) && BlocksBits([Fixed(ts)], 0) <= StreamBits([0x63, 0x60, 0x60, 0, 0])
    ensures StreamFollows([], [Fixed(ts)]) && StreamOutput([], [Fixed(ts)]) == [0, 0, 0]
  {
    hide HasCode, CodeBits, LsbBits, FixedLiterals, FixedDistances, StreamBits, ZeroLiteral, TokensBits, AllEncodable, Follow,
         Output, StreamValid, BlocksBits, StreamFollows, StreamOutput, CompressedBits, CompressedValid;
    var z, e, f := ZeroLiteral(), [0, 0, 0, 0, 0, 0, 0], [0, 0, 0, 0, 0, 0];
    BodyOfThreeZeroes();
    ThreeZeroBits(ts);
    assert [1, 1, 0] + z + z + z + e == [1, 1, 0] + (z + z + z + e);
    LiteralsFollow([], [0, 0, 0], ts);
    assert [] + [0, 0, 0] == [0, 0, 0];
    OneFixedBlock(ts, StreamBits([0x63, 0x60, 0x60, 0, 0]), f);
  }

  lemma ThreeZeroBits(ts: seq<Token>)
    requires ts == [Literal(0), Literal(0), Literal(0)]
    ensures CompressedValid(FixedLiterals(), FixedDistances(), ts)
    ensures CompressedBits(FixedLiterals(), FixedDistances(), ts)
         == ZeroLiteral() + ZeroLiteral() + ZeroLiteral() + [0, 0, 0, 0, 0, 0, 0]
    ensures LsbBits(1, 1) + LsbBits(1, 2) == [1, 1, 0]
  {
    hide HasCode, CodeBits, LsbBits, FixedLiterals, FixedDistances, ZeroLiteral, TokensBits, AllEncodable;
    ZeroCodes();
    ThreeLiterals(Literal(0));
  }

  lemma AdlerOfThreeZeroes()
    ensures Adler([0, 0, 0]) == 0x3_0001 && BigEndian(0x3_0001) == [0, 3, 0, 1]
  {
    assert [0, 0, 0][..2] == [0, 0] && [0, 0][..1] == [0] && [0][..0] == [];
    assert S1([0]) == 1 && S1([0, 0]) == 1 && S1([0, 0, 0]) == 1;
    assert S2([0]) == 1 && S2([0, 0]) == 2 && S2([0, 0, 0]) == 3;
  }

  /** Three zero bytes, compressed and cut just before the checksum: the body's own last
      four bytes are taken for it, and the stream is refused. */
  lemma CutShortIsRefused()
    ensures var body := [0x63, 0x60, 0x60, 0, 0];
            && Inflate(StreamBits(body)) == Ok([0, 0, 0])
            && Unwrapped([0x78, 0x9c] + body) == Err(ZlibChecksum)
  {
    hide Inflate, StreamBits, Unwrapped, BigEndian, Adler, StreamValid, BlocksBits, StreamFollows, StreamOutput;
    var body: seq<Byte> := [0x63, 0x60, 0x60, 0, 0];
    var ts := [Literal(0), Literal(0), Literal(0)];
    ThreeZeroes(ts);
    assert body + [] == body;
    StreamInflates([Fixed(ts)], body, [0, 0, 0], []);
    AdlerOfThreeZeroes();
    CutShortExactly([0x78, 0x9c], body, [], [0, 0, 0]);
  }

  /** What is compressed decompresses to itself; with any other four bytes in
      the checksum's place it is refused. */
  method ZlibRoundTrip(data: seq<Byte>, other: seq<Byte>)
    returns (stream: seq<Byte>, r: Result<seq<Byte>, Fault>, damaged: Result<seq<Byte>, Fault>)
    requires |other| == 4
    ensures |stream| >= 4
    ensures r == Ok(data)
    ensures damaged == if other == stream[|stream| - 4..] then Ok(data) else Err(ZlibChecksum)
  {
    hide *;
    ghost var body;
    stream, body := Compress(data);
    var sum := BigEndian(Adler(data));
    assert body + [] == body;
    WrappedUnwraps(data, body, sum);
    WrappedUnwraps(data, body, other);
    assert stream[..|stream| - 4] == [0x78, 0x9c] + body && stream[|stream| - 4..] == sum;
    r := Decompress(stream);
    damaged := Decompress(stream[..|stream| - 4] + other);
  }
}
