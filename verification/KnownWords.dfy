/** Values of the hasher and the generator that are known from elsewhere: what a fold is
    on a state or a word of zero, the first number splitmix64 draws from zero, and the
    first four that xoshiro256** draws from the words 1, 2, 3 and 4. Exclusive or goes
    four bits at a time from the highest, shifts and rotations as quotients and
    remainders, so that nothing is looked up where it was defined. */
module KnownWords {
  import opened Bits
  import opened LittleEndian
  import opened U64
  import opened Rng
  import opened TableHash

  // ----- Exclusive or, a byte at a time -----

  predicate IsXor(a: nat, b: nat, c: nat) {
    XorNat(a, b) == c
  }

  lemma XorUp(a: nat, b: nat, c: nat, p: Bit, q: Bit)
    requires IsXor(a, b, c)
    ensures IsXor(2 * a + p, 2 * b + q, 2 * c + (p + q) % 2)
  {
    assert (2 * a + p) / 2 == a && (2 * b + q) / 2 == b;
  }

  /** Four more bits of two numbers and of their exclusive or, the highest first. */
  lemma XorNibble(a: nat, b: nat, c: nat, p0: Bit, p1: Bit, p2: Bit, p3: Bit, q0: Bit, q1: Bit, q2: Bit, q3: Bit)
    requires IsXor(a, b, c)
    ensures IsXor(2 * (2 * (2 * (2 * a + p0) + p1) + p2) + p3, 2 * (2 * (2 * (2 * b + q0) + q1) + q2) + q3,
                  2 * (2 * (2 * (2 * c + (p0 + q0) % 2) + (p1 + q1) % 2) + (p2 + q2) % 2) + (p3 + q3) % 2)
  {
    hide IsXor;
    var c1 := 2 * c + (p0 + q0) % 2;
    XorUp(a, b, c, p0, q0);
    var a1, b1 := 2 * a + p0, 2 * b + q0;
    XorUp(a1, b1, c1, p1, q1);
    var a2, b2, c2 := 2 * a1 + p1, 2 * b1 + q1, 2 * c1 + (p1 + q1) % 2;
    XorUp(a2, b2, c2, p2, q2);
    XorUp(2 * a2 + p2, 2 * b2 + q2, 2 * c2 + (p2 + q2) % 2, p3, q3);
  }

  lemma NothingXor()
    ensures IsXor(0, 0, 0)
  {
  }

  // ----- Shifts and rotations as quotients -----

  lemma Powers()
    ensures Pow2(17) == 0x2_0000 && Pow2(19) == 0x8_0000 && Pow2(27) == 0x800_0000
    ensures Pow2(30) == 0x4000_0000 && Pow2(31) == 0x8000_0000
  {
    SmallPowers();
    Pow2Of16();
    Pow2Add(16, 1);
    Pow2Add(16, 3);
    Pow2Add(19, 7);
    assert Pow2(27) == 2 * Pow2(26);
    Pow2Add(27, 3);
    Pow2Add(27, 4);
  }

  lemma HighPowers()
    ensures Pow2(45) == 0x2000_0000_0000 && Pow2(57) == 0x200_0000_0000_0000 && Pow2(59) == 0x800_0000_0000_0000
  {
    SmallPowers();
    Powers();
    Pow2Add(30, 15);
    assert Pow2(15) == 0x8000 by { Pow2Of16(); }
    Pow2Add(27, 30);
    Pow2Add(57, 2);
  }

  lemma Rotated(a: Word, k: nat, p: nat, q: nat)
    requires k < 64 && p == Pow2(k) && q == Pow2(64 - k)
    ensures RotateLeft(a, k) == a % q * p + a / q
  {
    hide Pow2;
    HighIsQuotient(a, 64 - k);
  }

  // ----- The hasher -----

  /** From zero, a word is only multiplied. */
  lemma FoldFromZero(word: Word)
    ensures FoldWord(0, word)
         == (word * 0x9e37_79b9_7f4a_7c15) % 0x1_0000_0000_0000_0000 * 0x517c_c1b7_2722_0a95 % 0x1_0000_0000_0000_0000
  {
    ZeroStaysZero(5, 0);
    XorZero(Mul(word, WORD));
  }

  /** A zero word turns the state by five places and multiplies it. */
  lemma FoldOfZeroWord(state: Word)
    ensures FoldWord(state, 0)
         == (state % 0x800_0000_0000_0000 * 32 + state / 0x800_0000_0000_0000) * 0x517c_c1b7_2722_0a95
            % 0x1_0000_0000_0000_0000
  {
    SmallPowers();
    HighPowers();
    Rotated(state, 5, 32, 0x800_0000_0000_0000);
    var r := RotateLeft(state, 5);
    hide RotateLeft, XorNat;
    assert Mul(0, WORD) == 0;
    XorZero(r);
  }

  /** Eight bytes as a word, the first weighing least. */
  function Weighed(b: seq<Byte>): int
    requires |b| >= 8
  {
    Four(b[0], b[1], b[2], b[3]) + 0x1_0000_0000 * Four(b[4], b[5], b[6], b[7])
  }

  function Four(a: int, b: int, c: int, d: int): int {
    a + 0x100 * b + 0x1_0000 * c + 0x100_0000 * d
  }

  lemma DecodeIsWeighed(b: seq<Byte>)
    requires |b| == 8
    ensures Decode(b) == Weighed(b)
  {
    DecodeFour(b[4..]);
    DecodeFour(b[..4]);
    DecodeJoined(b);
  }

  lemma DecodeFour(b: seq<Byte>)
    requires |b| == 4
    ensures Decode(b) == Four(b[0], b[1], b[2], b[3])
  {
    assert b[1..][1..] == b[2..] && b[2..][1..] == b[3..] && b[3..][1..] == [];
    assert Decode(b[3..]) == b[3];
    assert Decode(b[2..]) == Four(b[2], b[3], 0, 0);
    assert Decode(b[1..]) == Four(b[1], b[2], b[3], 0);
  }

  lemma DecodeJoined(b: seq<Byte>)
    requires |b| == 8
    ensures Decode(b) == Decode(b[..4]) + 0x1_0000_0000 * Decode(b[4..])
  {
    DecodeFour(b[..4]);
    assert b[1..][1..] == b[2..] && b[2..][1..] == b[3..] && b[3..][1..] == b[4..];
    var end: int := Decode(b[4..]);
    assert Decode(b[3..]) == 0x100 * end + b[3];
    assert Decode(b[2..]) == 0x1_0000 * end + Four(b[2], b[3], 0, 0);
  }

  lemma PaddedByte(b: Byte)
    ensures WordOf(Padded([b])) == b
  {
    var s := Padded([b]);
    DecodeIsWeighed(s);
    assert s[0] == b && s[1] == s[2] == s[3] == s[4] == s[5] == s[6] == s[7] == 0;
  }

  /** A key of nine bytes: its first eight as a word, the ninth with zeros after it, and
      then its length. */
  lemma NineByteKey(state: Word, b: seq<Byte>)
    requires |b| == 9
    ensures 0 <= Weighed(b) < 0x1_0000_0000_0000_0000
    ensures Hash(state, b) == FoldWord(FoldWord(FoldWord(state, Weighed(b)), b[8]), 9)
  {
    hide FoldWord, Padded, WordOf, Weighed;
    KeyWord(b);
    PaddedByte(b[8]);
    var one := b[8..];
    assert one == [b[8]];
    assert FoldBytes(state, b) == FoldBytes(FoldWord(state, WordOf(b[..8])), one);
    assert FoldBytes(FoldWord(state, WordOf(b[..8])), one) == FoldWord(FoldWord(state, WordOf(b[..8])), WordOf(Padded(one)));
  }

  lemma KeyWord(b: seq<Byte>)
    requires |b| == 9
    ensures WordOf(b[..8]) == Weighed(b)
  {
    DecodeIsWeighed(b[..8]);
  }

  // ----- The seeding -----

  lemma FirstMix()
    ensures IsXor(0x9e3779b97f4a7c15, 0x278dde6e5, 0x9e3779bb07979af0)
  {
    NothingXor();
    hide IsXor;
    XorNibble(0x0, 0x0, 0x0, 1, 0, 0, 1, 0, 0, 0, 0);
    XorNibble(0x9, 0x0, 0x9, 1, 1, 1, 0, 0, 0, 0, 0);
    XorNibble(0x9e, 0x0, 0x9e, 0, 0, 1, 1, 0, 0, 0, 0);
    XorNibble(0x9e3, 0x0, 0x9e3, 0, 1, 1, 1, 0, 0, 0, 0);
    XorNibble(0x9e37, 0x0, 0x9e37, 0, 1, 1, 1, 0, 0, 0, 0);
    XorNibble(0x9e377, 0x0, 0x9e377, 1, 0, 0, 1, 0, 0, 0, 0);
    XorNibble(0x9e3779, 0x0, 0x9e3779, 1, 0, 1, 1, 0, 0, 0, 0);
    XorNibble(0x9e3779b, 0x0, 0x9e3779b, 1, 0, 0, 1, 0, 0, 1, 0);
    XorNibble(0x9e3779b9, 0x2, 0x9e3779bb, 0, 1, 1, 1, 0, 1, 1, 1);
    XorNibble(0x9e3779b97, 0x27, 0x9e3779bb0, 1, 1, 1, 1, 1, 0, 0, 0);
    XorNibble(0x9e3779b97f, 0x278, 0x9e3779bb07, 0, 1, 0, 0, 1, 1, 0, 1);
    XorNibble(0x9e3779b97f4, 0x278d, 0x9e3779bb079, 1, 0, 1, 0, 1, 1, 0, 1);
    XorNibble(0x9e3779b97f4a, 0x278dd, 0x9e3779bb0797, 0, 1, 1, 1, 1, 1, 1, 0);
    XorNibble(0x9e3779b97f4a7, 0x278dde, 0x9e3779bb07979, 1, 1, 0, 0, 0, 1, 1, 0);
    XorNibble(0x9e3779b97f4a7c, 0x278dde6, 0x9e3779bb07979a, 0, 0, 0, 1, 1, 1, 1, 0);
    XorNibble(0x9e3779b97f4a7c1, 0x278dde6e, 0x9e3779bb07979af, 0, 1, 0, 1, 0, 1, 0, 1);
  }

  lemma SecondMix()
    ensures IsXor(0x6f68261b57e7a770, 0xded04c36a, 0x6f682616bae3641a)
  {
    NothingXor();
    hide IsXor;
    XorNibble(0x0, 0x0, 0x0, 0, 1, 1, 0, 0, 0, 0, 0);
    XorNibble(0x6, 0x0, 0x6, 1, 1, 1, 1, 0, 0, 0, 0);
    XorNibble(0x6f, 0x0, 0x6f, 0, 1, 1, 0, 0, 0, 0, 0);
    XorNibble(0x6f6, 0x0, 0x6f6, 1, 0, 0, 0, 0, 0, 0, 0);
    XorNibble(0x6f68, 0x0, 0x6f68, 0, 0, 1, 0, 0, 0, 0, 0);
    XorNibble(0x6f682, 0x0, 0x6f682, 0, 1, 1, 0, 0, 0, 0, 0);
    XorNibble(0x6f6826, 0x0, 0x6f6826, 0, 0, 0, 1, 0, 0, 0, 0);
    XorNibble(0x6f68261, 0x0, 0x6f68261, 1, 0, 1, 1, 1, 1, 0, 1);
    XorNibble(0x6f68261b, 0xd, 0x6f682616, 0, 1, 0, 1, 1, 1, 1, 0);
    XorNibble(0x6f68261b5, 0xde, 0x6f682616b, 0, 1, 1, 1, 1, 1, 0, 1);
    XorNibble(0x6f68261b57, 0xded, 0x6f682616ba, 1, 1, 1, 0, 0, 0, 0, 0);
    XorNibble(0x6f68261b57e, 0xded0, 0x6f682616bae, 0, 1, 1, 1, 0, 1, 0, 0);
    XorNibble(0x6f68261b57e7, 0xded04, 0x6f682616bae3, 1, 0, 1, 0, 1, 1, 0, 0);
    XorNibble(0x6f68261b57e7a, 0xded04c, 0x6f682616bae36, 0, 1, 1, 1, 0, 0, 1, 1);
    XorNibble(0x6f68261b57e7a7, 0xded04c3, 0x6f682616bae364, 0, 1, 1, 1, 0, 1, 1, 0);
    XorNibble(0x6f68261b57e7a77, 0xded04c36, 0x6f682616bae3641, 0, 0, 0, 0, 1, 0, 1, 0);
  }

  lemma ThirdMix()
    ensures IsXor(0xe220a838bf5c9dde, 0x1c4415071, 0xe220a8397b1dcdaf)
  {
    NothingXor();
    hide IsXor;
    XorNibble(0x0, 0x0, 0x0, 1, 1, 1, 0, 0, 0, 0, 0);
    XorNibble(0xe, 0x0, 0xe, 0, 0, 1, 0, 0, 0, 0, 0);
    XorNibble(0xe2, 0x0, 0xe2, 0, 0, 1, 0, 0, 0, 0, 0);
    XorNibble(0xe22, 0x0, 0xe22, 0, 0, 0, 0, 0, 0, 0, 0);
    XorNibble(0xe220, 0x0, 0xe220, 1, 0, 1, 0, 0, 0, 0, 0);
    XorNibble(0xe220a, 0x0, 0xe220a, 1, 0, 0, 0, 0, 0, 0, 0);
    XorNibble(0xe220a8, 0x0, 0xe220a8, 0, 0, 1, 1, 0, 0, 0, 0);
    XorNibble(0xe220a83, 0x0, 0xe220a83, 1, 0, 0, 0, 0, 0, 0, 1);
    XorNibble(0xe220a838, 0x1, 0xe220a839, 1, 0, 1, 1, 1, 1, 0, 0);
    XorNibble(0xe220a838b, 0x1c, 0xe220a8397, 1, 1, 1, 1, 0, 1, 0, 0);
    XorNibble(0xe220a838bf, 0x1c4, 0xe220a8397b, 0, 1, 0, 1, 0, 1, 0, 0);
    XorNibble(0xe220a838bf5, 0x1c44, 0xe220a8397b1, 1, 1, 0, 0, 0, 0, 0, 1);
    XorNibble(0xe220a838bf5c, 0x1c441, 0xe220a8397b1d, 1, 0, 0, 1, 0, 1, 0, 1);
    XorNibble(0xe220a838bf5c9, 0x1c4415, 0xe220a8397b1dc, 1, 1, 0, 1, 0, 0, 0, 0);
    XorNibble(0xe220a838bf5c9d, 0x1c44150, 0xe220a8397b1dcd, 1, 1, 0, 1, 0, 1, 1, 1);
    XorNibble(0xe220a838bf5c9dd, 0x1c441507, 0xe220a8397b1dcda, 1, 1, 1, 0, 0, 0, 0, 1);
  }

  lemma ShrIs(v: Word, k: nat, p: nat)
    requires p == Pow2(k)
    ensures Shr(v, k) == v / p
  {
    HighIsQuotient(v, k);
  }

  lemma MixedIs(c: Word, x1: Word, v1: Word, x2: Word, v2: Word, x3: Word)
    requires IsXor(c, c / 0x4000_0000, x1) && v1 == x1 * 0xbf58_476d_1ce4_e5b9 % 0x1_0000_0000_0000_0000
    requires IsXor(v1, v1 / 0x800_0000, x2) && v2 == x2 * 0x94d0_49bb_1331_11eb % 0x1_0000_0000_0000_0000
    requires IsXor(v2, v2 / 0x8000_0000, x3)
    ensures Mixed(c) == x3
  {
    Powers();
    hide XorNat, Pow2, Shr;
    ShrIs(c, 30, 0x4000_0000);
    ShrIs(v1, 27, 0x800_0000);
    ShrIs(v2, 31, 0x8000_0000);
  }

  /** The first number splitmix64 draws from zero. */
  lemma FirstDraw()
    ensures Mixed(Add(0, GOLDEN)) == 0xe220_a839_7b1d_cdaf
  {
    FirstMix();
    SecondMix();
    ThirdMix();
    hide IsXor, Mixed;
    MixedIs(0x9e3779b97f4a7c15, 0x9e3779bb07979af0, 0x6f68261b57e7a770, 0x6f682616bae3641a, 0xe220a838bf5c9dde, 0xe220a8397b1dcdaf);
  }

  /** The words of a seed's state are the mixes of the seed and one, two, three and
      four times the golden ratio's word, in that order. */
  lemma SeedWords(seed: Word)
    ensures var g: nat := 0x9e37_79b9_7f4a_7c15;
            Seeded(seed) == State(Mixed(Counter(seed, g)), Mixed(Counter(seed, 2 * g)),
                                  Mixed(Counter(seed, 3 * g)), Mixed(Counter(seed, 4 * g)))
  {
    hide Mixed;
    assert Add(seed, GOLDEN) == Counter(seed, 0x9e37_79b9_7f4a_7c15);
    AddMore(seed, 0x9e37_79b9_7f4a_7c15, GOLDEN);
    AddMore(seed, 2 * 0x9e37_79b9_7f4a_7c15, GOLDEN);
    AddMore(seed, 3 * 0x9e37_79b9_7f4a_7c15, GOLDEN);
    hide Add, Counter;
  }

  function Counter(seed: Word, n: nat): Word {
    (seed + n) % 0x1_0000_0000_0000_0000
  }

  lemma AddMore(a: Word, n: nat, b: Word)
    ensures Add(Counter(a, n), b) == Counter(a, n + b)
  {
  }

  // ----- The generator -----

  /** One step, from the exclusive ors of its words. */
  lemma NextIs(s: State, n2: Word, n3: Word, t: State)
    requires IsXor(s.s2, s.s0, n2) && IsXor(s.s3, s.s1, n3)
    requires IsXor(s.s0, n3, t.s0) && IsXor(s.s1, n2, t.s1) && IsXor(n2, s.s1 * 0x2_0000 % 0x1_0000_0000_0000_0000, t.s2)
    requires t.s3 == n3 % 0x8_0000 * 0x2000_0000_0000 + n3 / 0x8_0000
    ensures Next(s) == t
  {
    Powers();
    HighPowers();
    hide XorNat, RotateLeft, Pow2;
    Rotated(n3, 45, 0x2000_0000_0000, 0x8_0000);
  }

  lemma OutputIs(s: State)
    ensures var v := s.s1 * 5 % 0x1_0000_0000_0000_0000;
            Output(s) == (v % 0x200_0000_0000_0000 * 128 + v / 0x200_0000_0000_0000) * 9 % 0x1_0000_0000_0000_0000
  {
    SmallPowers();
    HighPowers();
    hide RotateLeft, Pow2;
    Rotated(Mul(s.s1, 5), 7, 128, 0x200_0000_0000_0000);
  }

  lemma Step1Word0()
    ensures IsXor(0x3, 0x1, 0x2)
  {
    NothingXor();
    hide IsXor;
    XorNibble(0x0, 0x0, 0x0, 0, 0, 1, 1, 0, 0, 0, 1);
  }

  lemma Step1Word1()
    ensures IsXor(0x4, 0x2, 0x6)
  {
    NothingXor();
    hide IsXor;
    XorNibble(0x0, 0x0, 0x0, 0, 1, 0, 0, 0, 0, 1, 0);
  }

  lemma Step1Word2()
    ensures IsXor(0x1, 0x6, 0x7)
  {
    NothingXor();
    hide IsXor;
    XorNibble(0x0, 0x0, 0x0, 0, 0, 0, 1, 0, 1, 1, 0);
  }

  lemma Step1Word3()
    ensures IsXor(0x2, 0x2, 0x0)
  {
    NothingXor();
    hide IsXor;
    XorNibble(0x0, 0x0, 0x0, 0, 0, 1, 0, 0, 0, 1, 0);
  }

  lemma Step1Word4()
    ensures IsXor(0x2, 0x40000, 0x40002)
  {
    NothingXor();
    hide IsXor;
    XorNibble(0x0, 0x0, 0x0, 0, 0, 0, 0, 0, 1, 0, 0);
    XorNibble(0x0, 0x4, 0x4, 0, 0, 0, 0, 0, 0, 0, 0);
    XorNibble(0x0, 0x40, 0x40, 0, 0, 0, 0, 0, 0, 0, 0);
    XorNibble(0x0, 0x400, 0x400, 0, 0, 0, 0, 0, 0, 0, 0);
    XorNibble(0x0, 0x4000, 0x4000, 0, 0, 1, 0, 0, 0, 0, 0);
  }

  lemma Step1()
    ensures Next(State(0x1, 0x2, 0x3, 0x4)) == State(0x7, 0x0, 0x40002, 0xc00000000000)
  {
    hide IsXor;
    Step1Word0();
    Step1Word1();
    Step1Word2();
    Step1Word3();
    Step1Word4();
    NextIs(State(0x1, 0x2, 0x3, 0x4), 0x2, 0x6, State(0x7, 0x0, 0x40002, 0xc00000000000));
  }

  lemma Step2Word0()
    ensures IsXor(0x40002, 0x7, 0x40005)
  {
    NothingXor();
    hide IsXor;
    XorNibble(0x0, 0x0, 0x0, 0, 1, 0, 0, 0, 0, 0, 0);
    XorNibble(0x4, 0x0, 0x4, 0, 0, 0, 0, 0, 0, 0, 0);
    XorNibble(0x40, 0x0, 0x40, 0, 0, 0, 0, 0, 0, 0, 0);
    XorNibble(0x400, 0x0, 0x400, 0, 0, 0, 0, 0, 0, 0, 0);
    XorNibble(0x4000, 0x0, 0x4000, 0, 0, 1, 0, 0, 1, 1, 1);
  }

  lemma Step2Word1()
    ensures IsXor(0xc00000000000, 0x0, 0xc00000000000)
  {
    NothingXor();
    hide IsXor;
    XorNibble(0x0, 0x0, 0x0, 1, 1, 0, 0, 0, 0, 0, 0);
    XorNibble(0xc, 0x0, 0xc, 0, 0, 0, 0, 0, 0, 0, 0);
    XorNibble(0xc0, 0x0, 0xc0, 0, 0, 0, 0, 0, 0, 0, 0);
    XorNibble(0xc00, 0x0, 0xc00, 0, 0, 0, 0, 0, 0, 0, 0);
    XorNibble(0xc000, 0x0, 0xc000, 0, 0, 0, 0, 0, 0, 0, 0);
    XorNibble(0xc0000, 0x0, 0xc0000, 0, 0, 0, 0, 0, 0, 0, 0);
    XorNibble(0xc00000, 0x0, 0xc00000, 0, 0, 0, 0, 0, 0, 0, 0);
    XorNibble(0xc000000, 0x0, 0xc000000, 0, 0, 0, 0, 0, 0, 0, 0);
    XorNibble(0xc0000000, 0x0, 0xc0000000, 0, 0, 0, 0, 0, 0, 0, 0);
    XorNibble(0xc00000000, 0x0, 0xc00000000, 0, 0, 0, 0, 0, 0, 0, 0);
    XorNibble(0xc000000000, 0x0, 0xc000000000, 0, 0, 0, 0, 0, 0, 0, 0);
    XorNibble(0xc0000000000, 0x0, 0xc0000000000, 0, 0, 0, 0, 0, 0, 0, 0);
  }

  lemma Step2Word2()
    ensures IsXor(0x7, 0xc00000000000, 0xc00000000007)
  {
    NothingXor();
    hide IsXor;
    XorNibble(0x0, 0x0, 0x0, 0, 0, 0, 0, 1, 1, 0, 0);
    XorNibble(0x0, 0xc, 0xc, 0, 0, 0, 0, 0, 0, 0, 0);
    XorNibble(0x0, 0xc0, 0xc0, 0, 0, 0, 0, 0, 0, 0, 0);
    XorNibble(0x0, 0xc00, 0xc00, 0, 0, 0, 0, 0, 0, 0, 0);
    XorNibble(0x0, 0xc000, 0xc000, 0, 0, 0, 0, 0, 0, 0, 0);
    XorNibble(0x0, 0xc0000, 0xc0000, 0, 0, 0, 0, 0, 0, 0, 0);
    XorNibble(0x0, 0xc00000, 0xc00000, 0, 0, 0, 0, 0, 0, 0, 0);
    XorNibble(0x0, 0xc000000, 0xc000000, 0, 0, 0, 0, 0, 0, 0, 0);
    XorNibble(0x0, 0xc0000000, 0xc0000000, 0, 0, 0, 0, 0, 0, 0, 0);
    XorNibble(0x0, 0xc00000000, 0xc00000000, 0, 0, 0, 0, 0, 0, 0, 0);
    XorNibble(0x0, 0xc000000000, 0xc000000000, 0, 0, 0, 0, 0, 0, 0, 0);
    XorNibble(0x0, 0xc0000000000, 0xc0000000000, 0, 1, 1, 1, 0, 0, 0, 0);
  }

  lemma Step2Word3()
    ensures IsXor(0x0, 0x40005, 0x40005)
  {
    NothingXor();
    hide IsXor;
    XorNibble(0x0, 0x0, 0x0, 0, 0, 0, 0, 0, 1, 0, 0);
    XorNibble(0x0, 0x4, 0x4, 0, 0, 0, 0, 0, 0, 0, 0);
    XorNibble(0x0, 0x40, 0x40, 0, 0, 0, 0, 0, 0, 0, 0);
    XorNibble(0x0, 0x400, 0x400, 0, 0, 0, 0, 0, 0, 0, 0);
    XorNibble(0x0, 0x4000, 0x4000, 0, 0, 0, 0, 0, 1, 0, 1);
  }

  lemma Step2Word4()
    ensures IsXor(0x40005, 0x0, 0x40005)
  {
    NothingXor();
    hide IsXor;
    XorNibble(0x0, 0x0, 0x0, 0, 1, 0, 0, 0, 0, 0, 0);
    XorNibble(0x4, 0x0, 0x4, 0, 0, 0, 0, 0, 0, 0, 0);
    XorNibble(0x40, 0x0, 0x40, 0, 0, 0, 0, 0, 0, 0, 0);
    XorNibble(0x400, 0x0, 0x400, 0, 0, 0, 0, 0, 0, 0, 0);
    XorNibble(0x4000, 0x0, 0x4000, 0, 1, 0, 1, 0, 0, 0, 0);
  }

  lemma Step2()
    ensures Next(State(0x7, 0x0, 0x40002, 0xc00000000000)) == State(0xc00000000007, 0x40005, 0x40005, 0x18000000)
  {
    hide IsXor;
    Step2Word0();
    Step2Word1();
    Step2Word2();
    Step2Word3();
    Step2Word4();
    NextIs(State(0x7, 0x0, 0x40002, 0xc00000000000), 0x40005, 0xc00000000000, State(0xc00000000007, 0x40005, 0x40005, 0x18000000));
  }

  lemma Step3Word0()
    ensures IsXor(0x40005, 0xc00000000007, 0xc00000040002)
  {
    NothingXor();
    hide IsXor;
    XorNibble(0x0, 0x0, 0x0, 0, 0, 0, 0, 1, 1, 0, 0);
    XorNibble(0x0, 0xc, 0xc, 0, 0, 0, 0, 0, 0, 0, 0);
    XorNibble(0x0, 0xc0, 0xc0, 0, 0, 0, 0, 0, 0, 0, 0);
    XorNibble(0x0, 0xc00, 0xc00, 0, 0, 0, 0, 0, 0, 0, 0);
    XorNibble(0x0, 0xc000, 0xc000, 0, 0, 0, 0, 0, 0, 0, 0);
    XorNibble(0x0, 0xc0000, 0xc0000, 0, 0, 0, 0, 0, 0, 0, 0);
    XorNibble(0x0, 0xc00000, 0xc00000, 0, 0, 0, 0, 0, 0, 0, 0);
    XorNibble(0x0, 0xc000000, 0xc000000, 0, 1, 0, 0, 0, 0, 0, 0);
    XorNibble(0x4, 0xc0000000, 0xc0000004, 0, 0, 0, 0, 0, 0, 0, 0);
    XorNibble(0x40, 0xc00000000, 0xc00000040, 0, 0, 0, 0, 0, 0, 0, 0);
    XorNibble(0x400, 0xc000000000, 0xc000000400, 0, 0, 0, 0, 0, 0, 0, 0);
    XorNibble(0x4000, 0xc0000000000, 0xc0000004000, 0, 1, 0, 1, 0, 1, 1, 1);
  }

  lemma Step3Word1()
    ensures IsXor(0x18000000, 0x40005, 0x18040005)
  {
    NothingXor();
    hide IsXor;
    XorNibble(0x0, 0x0, 0x0, 0, 0, 0, 1, 0, 0, 0, 0);
    XorNibble(0x1, 0x0, 0x1, 1, 0, 0, 0, 0, 0, 0, 0);
    XorNibble(0x18, 0x0, 0x18, 0, 0, 0, 0, 0, 0, 0, 0);
    XorNibble(0x180, 0x0, 0x180, 0, 0, 0, 0, 0, 1, 0, 0);
    XorNibble(0x1800, 0x4, 0x1804, 0, 0, 0, 0, 0, 0, 0, 0);
    XorNibble(0x18000, 0x40, 0x18040, 0, 0, 0, 0, 0, 0, 0, 0);
    XorNibble(0x180000, 0x400, 0x180400, 0, 0, 0, 0, 0, 0, 0, 0);
    XorNibble(0x1800000, 0x4000, 0x1804000, 0, 0, 0, 0, 0, 1, 0, 1);
  }

  lemma Step3Word2()
    ensures IsXor(0xc00000000007, 0x18040005, 0xc00018040002)
  {
    NothingXor();
    hide IsXor;
    XorNibble(0x0, 0x0, 0x0, 1, 1, 0, 0, 0, 0, 0, 0);
    XorNibble(0xc, 0x0, 0xc, 0, 0, 0, 0, 0, 0, 0, 0);
    XorNibble(0xc0, 0x0, 0xc0, 0, 0, 0, 0, 0, 0, 0, 0);
    XorNibble(0xc00, 0x0, 0xc00, 0, 0, 0, 0, 0, 0, 0, 0);
    XorNibble(0xc000, 0x0, 0xc000, 0, 0, 0, 0, 0, 0, 0, 1);
    XorNibble(0xc0000, 0x1, 0xc0001, 0, 0, 0, 0, 1, 0, 0, 0);
    XorNibble(0xc00000, 0x18, 0xc00018, 0, 0, 0, 0, 0, 0, 0, 0);
    XorNibble(0xc000000, 0x180, 0xc000180, 0, 0, 0, 0, 0, 1, 0, 0);
    XorNibble(0xc0000000, 0x1804, 0xc0001804, 0, 0, 0, 0, 0, 0, 0, 0);
    XorNibble(0xc00000000, 0x18040, 0xc00018040, 0, 0, 0, 0, 0, 0, 0, 0);
    XorNibble(0xc000000000, 0x180400, 0xc000180400, 0, 0, 0, 0, 0, 0, 0, 0);
    XorNibble(0xc0000000000, 0x1804000, 0xc0001804000, 0, 1, 1, 1, 0, 1, 0, 1);
  }

  lemma Step3Word3()
    ensures IsXor(0x40005, 0xc00000040002, 0xc00000000007)
  {
    NothingXor();
    hide IsXor;
    XorNibble(0x0, 0x0, 0x0, 0, 0, 0, 0, 1, 1, 0, 0);
    XorNibble(0x0, 0xc, 0xc, 0, 0, 0, 0, 0, 0, 0, 0);
    XorNibble(0x0, 0xc0, 0xc0, 0, 0, 0, 0, 0, 0, 0, 0);
    XorNibble(0x0, 0xc00, 0xc00, 0, 0, 0, 0, 0, 0, 0, 0);
    XorNibble(0x0, 0xc000, 0xc000, 0, 0, 0, 0, 0, 0, 0, 0);
    XorNibble(0x0, 0xc0000, 0xc0000, 0, 0, 0, 0, 0, 0, 0, 0);
    XorNibble(0x0, 0xc00000, 0xc00000, 0, 0, 0, 0, 0, 0, 0, 0);
    XorNibble(0x0, 0xc000000, 0xc000000, 0, 1, 0, 0, 0, 1, 0, 0);
    XorNibble(0x4, 0xc0000004, 0xc0000000, 0, 0, 0, 0, 0, 0, 0, 0);
    XorNibble(0x40, 0xc00000040, 0xc00000000, 0, 0, 0, 0, 0, 0, 0, 0);
    XorNibble(0x400, 0xc000000400, 0xc000000000, 0, 0, 0, 0, 0, 0, 0, 0);
    XorNibble(0x4000, 0xc0000004000, 0xc0000000000, 0, 1, 0, 1, 0, 0, 1, 0);
  }

  lemma Step3Word4()
    ensures IsXor(0xc00000040002, 0x8000a0000, 0xc008000e0002)
  {
    NothingXor();
    hide IsXor;
    XorNibble(0x0, 0x0, 0x0, 1, 1, 0, 0, 0, 0, 0, 0);
    XorNibble(0xc, 0x0, 0xc, 0, 0, 0, 0, 0, 0, 0, 0);
    XorNibble(0xc0, 0x0, 0xc0, 0, 0, 0, 0, 0, 0, 0, 0);
    XorNibble(0xc00, 0x0, 0xc00, 0, 0, 0, 0, 1, 0, 0, 0);
    XorNibble(0xc000, 0x8, 0xc008, 0, 0, 0, 0, 0, 0, 0, 0);
    XorNibble(0xc0000, 0x80, 0xc0080, 0, 0, 0, 0, 0, 0, 0, 0);
    XorNibble(0xc00000, 0x800, 0xc00800, 0, 0, 0, 0, 0, 0, 0, 0);
    XorNibble(0xc000000, 0x8000, 0xc008000, 0, 1, 0, 0, 1, 0, 1, 0);
    XorNibble(0xc0000004, 0x8000a, 0xc008000e, 0, 0, 0, 0, 0, 0, 0, 0);
    XorNibble(0xc00000040, 0x8000a0, 0xc008000e0, 0, 0, 0, 0, 0, 0, 0, 0);
    XorNibble(0xc000000400, 0x8000a00, 0xc008000e00, 0, 0, 0, 0, 0, 0, 0, 0);
    XorNibble(0xc0000004000, 0x8000a000, 0xc008000e000, 0, 0, 1, 0, 0, 0, 0, 0);
  }

  lemma Step3()
    ensures Next(State(0xc00000000007, 0x40005, 0x40005, 0x18000000)) == State(0xc00018040002, 0xc00000000007, 0xc008000e0002, 0x8000a00000000300)
  {
    hide IsXor;
    Step3Word0();
    Step3Word1();
    Step3Word2();
    Step3Word3();
    Step3Word4();
    NextIs(State(0xc00000000007, 0x40005, 0x40005, 0x18000000), 0xc00000040002, 0x18040005, State(0xc00018040002, 0xc00000000007, 0xc008000e0002, 0x8000a00000000300));
  }

  /** The first four numbers xoshiro256** draws from the words 1, 2, 3 and 4. */
  lemma FirstOutputs()
    ensures var s := State(1, 2, 3, 4);
            && Output(s) == 11520
            && Output(Next(s)) == 0
            && Output(Next(Next(s))) == 1509978240
            && Output(Next(Next(Next(s)))) == 1215971899390074240
  {
    hide Output, Next;
    Step1();
    Step2();
    Step3();
    OutputIs(State(0x1, 0x2, 0x3, 0x4));
    OutputIs(State(0x7, 0x0, 0x40002, 0xc00000000000));
    OutputIs(State(0xc00000000007, 0x40005, 0x40005, 0x18000000));
    OutputIs(State(0xc00018040002, 0xc00000000007, 0xc008000e0002, 0x8000a00000000300));
  }
}
