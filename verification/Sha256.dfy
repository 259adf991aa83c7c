/** SHA-256: the compression and padding of FIPS 180-4, and a streaming hasher that
    must give the same digest however the message is cut. */
module Sha256 {
  import opened ByteStrings

  // ----- Section 4.1.2: functions -----

  function Ch(x: bv32, y: bv32, z: bv32): bv32 {
    (x & y) ^ (!x & z)
  }

  function Maj(x: bv32, y: bv32, z: bv32): bv32 {
    (x & y) ^ (x & z) ^ (y & z)
  }

  function BigSigma0(x: bv32): bv32 {
    x.RotateRight(2) ^ x.RotateRight(13) ^ x.RotateRight(22)
  }

  function BigSigma1(x: bv32): bv32 {
    x.RotateRight(6) ^ x.RotateRight(11) ^ x.RotateRight(25)
  }

  function SmallSigma0(x: bv32): bv32 {
    x.RotateRight(7) ^ x.RotateRight(18) ^ (x >> 3)
  }

  function SmallSigma1(x: bv32): bv32 {
    x.RotateRight(17) ^ x.RotateRight(19) ^ (x >> 10)
  }

  /** Addition modulo 2^32. */
  function Add(x: bv32, y: bv32): bv32 {
    x + y
  }

  function Sum4(a: bv32, b: bv32, c: bv32, d: bv32): bv32 {
    a + b + c + d
  }

  function KRow(row: nat): (r: seq<bv32>)
    requires row < 8
    ensures |r| == 8
  {
    match row
    case 0 => [0x428a2f98, 0x71374491, 0xb5c0fbcf, 0xe9b5dba5, 0x3956c25b, 0x59f111f1, 0x923f82a4, 0xab1c5ed5]
    case 1 => [0xd807aa98, 0x12835b01, 0x243185be, 0x550c7dc3, 0x72be5d74, 0x80deb1fe, 0x9bdc06a7, 0xc19bf174]
    case 2 => [0xe49b69c1, 0xefbe4786, 0x0fc19dc6, 0x240ca1cc, 0x2de92c6f, 0x4a7484aa, 0x5cb0a9dc, 0x76f988da]
    case 3 => [0x983e5152, 0xa831c66d, 0xb00327c8, 0xbf597fc7, 0xc6e00bf3, 0xd5a79147, 0x06ca6351, 0x14292967]
    case 4 => [0x27b70a85, 0x2e1b2138, 0x4d2c6dfc, 0x53380d13, 0x650a7354, 0x766a0abb, 0x81c2c92e, 0x92722c85]
    case 5 => [0xa2bfe8a1, 0xa81a664b, 0xc24b8b70, 0xc76c51a3, 0xd192e819, 0xd6990624, 0xf40e3585, 0x106aa070]
    case 6 => [0x19a4c116, 0x1e376c08, 0x2748774c, 0x34b0bcb5, 0x391c0cb3, 0x4ed8aa4a, 0x5b9cca4f, 0x682e6ff3]
    case _ => [0x748f82ee, 0x78a5636f, 0x84c87814, 0x8cc70208, 0x90befffa, 0xa4506ceb, 0xbef9a3f7, 0xc67178f2]
  }

  /** The constant of round `t`. */
  function K(t: nat): bv32
    requires t < 64
  {
    KRow(t / 8)[t % 8]
  }

  /** The eight words of a hash value, which are also the working variables. */
  datatype Words = Words(a: bv32, b: bv32, c: bv32, d: bv32, e: bv32, f: bv32, g: bv32, h: bv32)

  const INITIAL := Words(0x6a09e667, 0xbb67ae85, 0x3c6ef372, 0xa54ff53a, 0x510e527f, 0x9b05688c, 0x1f83d9ab, 0x5be0cd19)

  function BigWord(b0: bv8, b1: bv8, b2: bv8, b3: bv8): bv32 {
    ((b0 as bv32) << 24) | ((b1 as bv32) << 16) | ((b2 as bv32) << 8) | (b3 as bv32)
  }

  // ----- Section 6.2.2: one block -----

  /** Word `t` of the message schedule. */
  function Schedule(block: seq<bv8>, t: nat): bv32
    requires |block| == 64 && t < 64
  {
    if t < 16 then BigWord(block[4 * t], block[4 * t + 1], block[4 * t + 2], block[4 * t + 3])
    else Sum4(SmallSigma1(Schedule(block, t - 2)), Schedule(block, t - 7),
              SmallSigma0(Schedule(block, t - 15)), Schedule(block, t - 16))
  }

  function Round(v: Words, k: bv32, w: bv32): Words {
    var t1 := Add(Add(Add(Add(v.h, BigSigma1(v.e)), Ch(v.e, v.f, v.g)), k), w);
    var t2 := Add(BigSigma0(v.a), Maj(v.a, v.b, v.c));
    Words(Add(t1, t2), v.a, v.b, v.c, Add(v.d, t1), v.e, v.f, v.g)
  }

  function Rounds(v: Words, block: seq<bv8>, t: nat): Words
    requires |block| == 64 && t <= 64
  {
    if t == 0 then v else Round(Rounds(v, block, t - 1), K(t - 1), Schedule(block, t - 1))
  }

  function AddWords(x: Words, y: Words): Words {
    Words(Add(x.a, y.a), Add(x.b, y.b), Add(x.c, y.c), Add(x.d, y.d),
          Add(x.e, y.e), Add(x.f, y.f), Add(x.g, y.g), Add(x.h, y.h))
  }

  function CompressBlock(h: Words, block: seq<bv8>): Words
    requires |block| == 64
  {
    AddWords(h, Rounds(h, block, 64))
  }

  /** The hash value after whole blocks. */
  function HashBlocks(h: Words, data: seq<bv8>): Words
    requires |data| % 64 == 0
    decreases |data|
  {
    if data == [] then h else HashBlocks(CompressBlock(h, data[..64]), data[64..])
  }

  lemma {:induction false} HashBlocksConcat(h: Words, a: seq<bv8>, b: seq<bv8>)
    requires |a| % 64 == 0 && |b| % 64 == 0
    ensures HashBlocks(h, a + b) == HashBlocks(HashBlocks(h, a), b)
    decreases |a|
  {
    hide CompressBlock;
    if a == [] {
      assert a + b == b;
    } else {
      assert (a + b)[..64] == a[..64] && (a + b)[64..] == a[64..] + b;
      HashBlocksConcat(CompressBlock(h, a[..64]), a[64..], b);
    }
  }

  lemma HashOneBlock(h: Words, block: seq<bv8>)
    requires |block| == 64
    ensures HashBlocks(h, block) == CompressBlock(h, block)
  {
    hide CompressBlock;
    assert block[..64] == block && block[64..] == [];
  }

  // ----- Section 5.1.1: padding -----

  /** A 64-bit number, most significant byte first. */
  function BigEndian64(n: nat): (s: seq<bv8>)
    requires n < 0x1_0000_0000_0000_0000
    ensures |s| == 8
  {
    [ByteOf(n / 0x100_0000_0000_0000), ByteOf(n / 0x1_0000_0000_0000), ByteOf(n / 0x100_0000_0000), ByteOf(n / 0x1_0000_0000),
     ByteOf(n / 0x100_0000), ByteOf(n / 0x1_0000), ByteOf(n / 0x100), ByteOf(n)]
  }

  function ByteOf(n: nat): bv8 {
    (n % 256) as bv8
  }

  /** The fewest zero bytes that leave room for the length in a last block. */
  function ZeroCount(n: nat): (k: nat)
    ensures k < 64 && (n + 1 + k) % 64 == 56
  {
    (55 - n) % 64
  }

  lemma ZeroCountIsLeast(n: nat, k: nat)
    requires (n + 1 + k) % 64 == 56
    ensures k >= ZeroCount(n)
  {
  }

  /** A message of `n` bytes padded to whole blocks, with a declared bit count. */
  function Padded(message: seq<bv8>, bits: nat): (s: seq<bv8>)
    requires bits < 0x1_0000_0000_0000_0000
    ensures |s| % 64 == 0
  {
    message + [0x80] + Zeros(ZeroCount(|message|)) + BigEndian64(bits)
  }

  function WordBytes(w: bv32): (s: seq<bv8>)
    ensures |s| == 4
  {
    [((w >> 24) & 0xff) as bv8, ((w >> 16) & 0xff) as bv8, ((w >> 8) & 0xff) as bv8, (w & 0xff) as bv8]
  }

  function DigestBytes(h: Words): (s: seq<bv8>)
    ensures |s| == 32
  {
    WordBytes(h.a) + WordBytes(h.b) + WordBytes(h.c) + WordBytes(h.d) +
    WordBytes(h.e) + WordBytes(h.f) + WordBytes(h.g) + WordBytes(h.h)
  }

  const WRAP: nat := 0x1_0000_0000_0000_0000

  /** The digest the streaming hasher gives: its bit count wraps at 64 bits. */
  function WrappingDigest(message: seq<bv8>): seq<bv8> {
    DigestBytes(HashBlocks(INITIAL, Padded(message, (|message| % WRAP * 8) % WRAP)))
  }

  /** The digest the standard defines, for every message it defines one for. */
  function Digest(message: seq<bv8>): seq<bv8>
    requires 8 * |message| < WRAP
  {
    DigestBytes(HashBlocks(INITIAL, Padded(message, 8 * |message|)))
  }

  lemma NoWrapBelowTheStandardsLimit(message: seq<bv8>)
    requires 8 * |message| < WRAP
    ensures WrappingDigest(message) == Digest(message)
  {
    hide DigestBytes, HashBlocks, Padded;
  }

  // ----- The compression loop -----

  /** The schedule adds the same four words in another order. */
  lemma ScheduleOrder(w16: bv32, s0: bv32, w7: bv32, s1: bv32)
    ensures Sum4(w16, s0, w7, s1) == Sum4(s1, w7, s0, w16)
  {
  }

  /** Fills the message schedule, each word from the ones before it. */
  method BuildSchedule(block: seq<bv8>) returns (schedule: array<bv32>)
    requires |block| == 64
    ensures fresh(schedule) && schedule.Length == 64
    ensures forall t :: 0 <= t < 64 ==> schedule[t] == Schedule(block, t)
  {
    hide BigWord, SmallSigma0, SmallSigma1, Sum4, Schedule;
    schedule := new bv32[64](_ => 0);
    for index := 0 to 16
      invariant forall t :: 0 <= t < index ==> schedule[t] == Schedule(block, t)
    {
      ScheduleStarts(block, index);
      var start := index * 4;
      schedule[index] := BigWord(block[start], block[start + 1], block[start + 2], block[start + 3]);
    }
    for index := 16 to 64
      invariant forall t :: 0 <= t < index ==> schedule[t] == Schedule(block, t)
    {
      ScheduleGoesOn(block, index);
      var s0 := SmallSigma0(schedule[index - 15]);
      var s1 := SmallSigma1(schedule[index - 2]);
      ScheduleOrder(schedule[index - 16], s0, schedule[index - 7], s1);
      schedule[index] := Sum4(schedule[index - 16], s0, schedule[index - 7], s1);
    }
  }

  lemma ScheduleStarts(block: seq<bv8>, t: nat)
    requires |block| == 64 && t < 16
    ensures Schedule(block, t) == BigWord(block[4 * t], block[4 * t + 1], block[4 * t + 2], block[4 * t + 3])
  {
  }

  lemma ScheduleGoesOn(block: seq<bv8>, t: nat)
    requires |block| == 64 && 16 <= t < 64
    ensures Schedule(block, t) == Sum4(SmallSigma1(Schedule(block, t - 2)), Schedule(block, t - 7),
                                       SmallSigma0(Schedule(block, t - 15)), Schedule(block, t - 16))
  {
  }

  /** Runs one compression over a 64-byte block. */
  method Compress(state: Words, block: seq<bv8>) returns (next: Words)
    requires |block| == 64
    ensures next == CompressBlock(state, block)
  {
    hide BigSigma0, BigSigma1, Ch, Maj, Add, K, Schedule;
    var schedule := BuildSchedule(block);
    var Words(a, b, c, d, e, f, g, h) := state;
    for index := 0 to 64
      invariant forall t :: 0 <= t < 64 ==> schedule[t] == Schedule(block, t)
      invariant Words(a, b, c, d, e, f, g, h) == Rounds(state, block, index)
    {
      var s1 := BigSigma1(e);
      var choose := Ch(e, f, g);
      var temp1 := Add(Add(Add(Add(h, s1), choose), K(index)), schedule[index]);
      var s0 := BigSigma0(a);
      var majority := Maj(a, b, c);
      var temp2 := Add(s0, majority);
      h := g;
      g := f;
      f := e;
      e := Add(d, temp1);
      d := c;
      c := b;
      b := a;
      a := Add(temp1, temp2);
    }
    next := AddWords(state, Words(a, b, c, d, e, f, g, h));
  }

  // ----- The streaming hasher -----

  /** The whole blocks of what was fed are in the hash value and the rest waits. */
  ghost predicate Holds(state: Words, waiting: seq<bv8>, fed: seq<bv8>) {
    && |waiting| == |fed| % 64
    && waiting == fed[|fed| - |waiting|..]
    && state == HashBlocks(INITIAL, fed[..|fed| - |waiting|])
  }

  lemma HoldsNothing()
    ensures Holds(INITIAL, [], [])
  {
  }

  lemma HoldsMore(state: Words, waiting: seq<bv8>, fed: seq<bv8>, head: seq<bv8>)
    requires Holds(state, waiting, fed) && |waiting| + |head| < 64
    ensures Holds(state, waiting + head, fed + head)
  {
    hide HashBlocks;
    var whole := fed[..|fed| - |waiting|];
    assert fed + head == whole + (waiting + head);
    assert (fed + head)[..|whole|] == whole;
  }

  lemma HoldsFull(state: Words, waiting: seq<bv8>, fed: seq<bv8>, head: seq<bv8>)
    requires Holds(state, waiting, fed) && |waiting| + |head| == 64
    ensures Holds(CompressBlock(state, waiting + head), [], fed + head)
  {
    hide HashBlocks, CompressBlock;
    var whole := fed[..|fed| - |waiting|];
    assert fed + head == whole + (waiting + head);
    HashBlocksConcat(INITIAL, whole, waiting + head);
    HashOneBlock(state, waiting + head);
    assert (fed + head)[..|fed + head|] == fed + head;
  }

  /** With nothing waiting the hash value is that of everything fed. */
  lemma HoldsWhole(state: Words, waiting: seq<bv8>, fed: seq<bv8>)
    requires Holds(state, waiting, fed)
    ensures |waiting| == |fed| % 64
    ensures waiting == [] ==> state == HashBlocks(INITIAL, fed)
  {
    hide HashBlocks;
    if waiting == [] {
      assert fed[..|fed|] == fed;
    }
  }

  class Hasher {
    var state: Words
    const buffer: array<bv8>
    var filled: nat
    var length: nat
    /** Every byte taken in, padding included. */
    ghost var fed: seq<bv8>

    constructor ()
      ensures Valid() && fresh(buffer) && fed == [] && length == 0
    {
      state := INITIAL;
      buffer := new bv8[64](_ => 0);
      filled := 0;
      length := 0;
      fed := [];
      HoldsNothing();
      new;
      assert buffer[..0] == [];
    }

    ghost predicate Valid()
      reads this, buffer
    {
      buffer.Length == 64 && length < WRAP && filled < 64 && Holds(state, buffer[..filled], fed)
    }

    /** Adds bytes to the hash: fill the buffer, and compress it whenever it is
        full. */
    method Update(data: seq<bv8>)
      requires Valid()
      modifies this, buffer
      ensures Valid()
      ensures fed == old(fed) + data && length == (old(length) + |data|) % WRAP
    {
      hide Holds;
      length := (length + |data|) % WRAP;
      var rest := data;
      while rest != []
        invariant Valid() && length == (old(length) + |data|) % WRAP
        invariant fed + rest == old(fed) + data
        decreases |rest|
      {
        rest := TakeSome(rest);
      }
    }

    /** One turn of that loop: takes what fits and returns what is left. */
    method TakeSome(rest: seq<bv8>) returns (left: seq<bv8>)
      requires Valid() && rest != []
      modifies `state, `filled, `fed, buffer
      ensures Valid() && |left| < |rest|
      ensures exists take: nat :: take <= |rest| && left == rest[take..] && fed == old(fed) + rest[..take]
    {
      hide Holds, CompressBlock;
      var room := 64 - filled;
      var take: nat := if room < |rest| then room else |rest|;
      var head := rest[..take];
      var before := filled;
      ghost var waiting := buffer[..filled];
      forall k | 0 <= k < take {
        buffer[before + k] := head[k];
      }
      filled := filled + take;
      assert buffer[..filled] == waiting + head;
      left := rest[take..];
      if filled == 64 {
        HoldsFull(state, waiting, fed, head);
        assert buffer[..] == waiting + head;
        state := Compress(state, buffer[..]);
        filled := 0;
        assert buffer[..0] == [];
      } else {
        HoldsMore(state, waiting, fed, head);
      }
      fed := fed + head;
    }

    /** Adds padding bytes without counting them in the length. */
    method UpdateRaw(data: seq<bv8>)
      requires Valid()
      modifies this, buffer
      ensures Valid()
      ensures fed == old(fed) + data && length == old(length)
    {
      hide Holds;
      var held := length;
      Update(data);
      length := held;
    }

    /** Pads, and returns the digest. */
    method Finish() returns (digest: seq<bv8>)
      requires Valid() && length == |fed| % WRAP
      modifies this, buffer
      ensures digest == WrappingDigest(old(fed))
    {
      hide HashBlocks, DigestBytes, BigEndian64, ByteOf, Holds;
      ghost var message := fed;
      var bits := length * 8 % WRAP;
      UpdateRaw([0x80]);
      ghost var zeros: nat := 0;
      HoldsWhole(state, buffer[..filled], fed);
      while filled != 56
        invariant Valid() && filled == |fed| % 64 && zeros <= ZeroCount(|message|)
        invariant fed == message + [0x80] + Zeros(zeros)
        decreases ZeroCount(|message|) - zeros
      {
        ZerosLeft(|message|, zeros);
        UpdateRaw([0]);
        assert Zeros(zeros + 1) == Zeros(zeros) + [0];
        zeros := zeros + 1;
        HoldsWhole(state, buffer[..filled], fed);
      }
      ZeroCountIsLeast(|message|, zeros);
      UpdateRaw(BigEndian64(bits));
      assert fed == Padded(message, bits);
      HoldsWhole(state, buffer[..filled], fed);
      digest := DigestBytes(state);
    }
  }

  /** Short of its count the padding is not yet at byte 56 of a block. */
  lemma ZerosLeft(n: nat, zeros: nat)
    requires zeros <= ZeroCount(n) && (n + 1 + zeros) % 64 != 56
    ensures zeros < ZeroCount(n)
  {
  }

  /** A message fed in any pieces has the digest of the whole message. */
  method HashPieces(pieces: seq<seq<bv8>>) returns (digest: seq<bv8>)
    ensures digest == WrappingDigest(Joined(pieces))
    ensures 8 * |Joined(pieces)| < WRAP ==> digest == Digest(Joined(pieces))
  {
    hide Hasher.Valid, HashBlocks, Padded, DigestBytes, WrappingDigest, Digest, BigEndian64;
    var hasher := new Hasher();
    for at := 0 to |pieces|
      invariant hasher.Valid() && fresh(hasher) && fresh(hasher.buffer)
      invariant hasher.fed == Joined(pieces[..at]) && hasher.length == |hasher.fed| % WRAP
    {
      assert pieces[..at + 1][..at] == pieces[..at];
      hasher.Update(pieces[at]);
    }
    assert pieces[..|pieces|] == pieces;
    digest := hasher.Finish();
    if 8 * |Joined(pieces)| < WRAP {
      NoWrapBelowTheStandardsLimit(Joined(pieces));
    }
  }
}
