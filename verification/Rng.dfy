/** The deterministic generator: xoshiro256** seeded through splitmix64. */
module Rng {
  import opened Bits
  import opened U64

  const GOLDEN: Word := 0x9e37_79b9_7f4a_7c15
  const FIRST: Word := 0xbf58_476d_1ce4_e5b9
  const SECOND: Word := 0x94d0_49bb_1331_11eb

  // ----- Seeding -----

  /** The output mixer of splitmix64. */
  function Mixed(counter: Word): Word {
    var v1 := Mul(Xor(counter, Shr(counter, 30)), FIRST);
    var v2 := Mul(Xor(v1, Shr(v1, 27)), SECOND);
    Xor(v2, Shr(v2, 31))
  }

  /** Advances a splitmix64 state and returns it with the mixed output. */
  method SplitMix64(state: Word) returns (next: Word, value: Word)
    ensures next == Add(state, GOLDEN) && value == Mixed(next)
  {
    next := Add(state, GOLDEN);
    value := next;
    value := Mul(Xor(value, Shr(value, 30)), FIRST);
    value := Mul(Xor(value, Shr(value, 27)), SECOND);
    value := Xor(value, Shr(value, 31));
  }

  lemma MixersHaveInverses()
    ensures (FIRST * 0x96de_1b17_3f11_9089) % MODULUS == 1
    ensures (SECOND * 0x3196_42b2_d24d_8ec3) % MODULUS == 1
  {
  }

  /** The mixer loses nothing. */
  lemma MixedInjective(a: Word, b: Word)
    requires Mixed(a) == Mixed(b)
    ensures a == b
  {
    hide Xor, Shr, Mul;
    MixersHaveInverses();
    var a1, b1 := Mul(Xor(a, Shr(a, 30)), FIRST), Mul(Xor(b, Shr(b, 30)), FIRST);
    var a2, b2 := Mul(Xor(a1, Shr(a1, 27)), SECOND), Mul(Xor(b1, Shr(b1, 27)), SECOND);
    XorShrInjective(a2, b2, 31);
    MulInjective(Xor(a1, Shr(a1, 27)), Xor(b1, Shr(b1, 27)), SECOND, 0x3196_42b2_d24d_8ec3);
    XorShrInjective(a1, b1, 27);
    MulInjective(Xor(a, Shr(a, 30)), Xor(b, Shr(b, 30)), FIRST, 0x96de_1b17_3f11_9089);
    XorShrInjective(a, b, 30);
  }

  datatype State = State(s0: Word, s1: Word, s2: Word, s3: Word)

  const ZERO := State(0, 0, 0, 0)

  function Seeded(seed: Word): State {
    var c0 := Add(seed, GOLDEN);
    var c1 := Add(c0, GOLDEN);
    var c2 := Add(c1, GOLDEN);
    State(Mixed(c0), Mixed(c1), Mixed(c2), Mixed(Add(c2, GOLDEN)))
  }

  lemma CounterMoves(c: Word)
    ensures Add(c, GOLDEN) != c
  {
  }

  /** Every seed gives a state that is not all zero: neighbouring words differ. */
  lemma SeededIsNotZero(seed: Word)
    ensures Seeded(seed) != ZERO && Seeded(seed).s0 != Seeded(seed).s1
    ensures Seeded(seed).s1 != Seeded(seed).s2 && Seeded(seed).s2 != Seeded(seed).s3
  {
    hide Mixed, Add;
    var c0 := Add(seed, GOLDEN);
    var c1 := Add(c0, GOLDEN);
    var c2 := Add(c1, GOLDEN);
    CounterMoves(c0);
    CounterMoves(c1);
    CounterMoves(c2);
    if Mixed(c0) == Mixed(c1) {
      MixedInjective(c0, c1);
    }
    if Mixed(c1) == Mixed(c2) {
      MixedInjective(c1, c2);
    }
    if Mixed(c2) == Mixed(Add(c2, GOLDEN)) {
      MixedInjective(c2, Add(c2, GOLDEN));
    }
  }

  /** Different seeds start different streams. */
  lemma SeedsDiffer(a: Word, b: Word)
    requires Seeded(a) == Seeded(b)
    ensures a == b
  {
    hide Mixed;
    MixedInjective(Add(a, GOLDEN), Add(b, GOLDEN));
  }

  // ----- Stepping -----

  function Next(s: State): State {
    var n2 := Xor(s.s2, s.s0);
    var n3 := Xor(s.s3, s.s1);
    State(Xor(s.s0, n3), Xor(s.s1, n2), Xor(n2, Shl(s.s1, 17)), RotateLeft(n3, 45))
  }

  function Output(s: State): Word {
    Mul(RotateLeft(Mul(s.s1, 5), 7), 9)
  }

  /** The state map is injective: a state has one predecessor at most. */
  lemma NextInjective(a: State, b: State)
    requires Next(a) == Next(b)
    ensures a == b
  {
    hide Xor, Shl, RotateLeft;
    var a2, a3 := Xor(a.s2, a.s0), Xor(a.s3, a.s1);
    var b2, b3 := Xor(b.s2, b.s0), Xor(b.s3, b.s1);
    RotateLeftInjective(a3, b3, 45);
    XorCancel(a.s0, b.s0, a3);
    XorMiddle(a.s1, a2, Shl(a.s1, 17));
    XorMiddle(b.s1, b2, Shl(b.s1, 17));
    XorShlInjective(a.s1, b.s1, 17);
    XorCancel(a2, b2, a.s1);
    XorCancel(a.s2, b.s2, a.s0);
    XorCancel(a.s3, b.s3, a.s1);
  }

  lemma XorCancel(a: Word, b: Word, c: Word)
    ensures Xor(a, c) == Xor(b, c) ==> a == b
    ensures Xor(c, a) == Xor(c, b) ==> a == b
  {
    XorInjective(a, b, c);
  }

  lemma ZeroStays()
    ensures Next(ZERO) == ZERO
  {
    hide Xor, RotateLeft, Shl;
    ZeroStaysZero(17, 0);
    ZeroStaysZero(45, 0);
  }

  /** The state `n` steps after a seed. */
  function After(seed: Word, n: nat): State {
    if n == 0 then Seeded(seed) else Next(After(seed, n - 1))
  }

  /** No run from any seed ever reaches the state that would stay at zero. */
  lemma {:induction false} NeverZero(seed: Word, n: nat)
    ensures After(seed, n) != ZERO
  {
    hide Next, Seeded;
    if n == 0 {
      SeededIsNotZero(seed);
    } else {
      NeverZero(seed, n - 1);
      ZeroStays();
      if Next(After(seed, n - 1)) == ZERO {
        NextInjective(After(seed, n - 1), ZERO);
      }
    }
  }

  class Generator {
    var state: State

    constructor (seed: Word)
      ensures state == Seeded(seed)
    {
      var expander := seed;
      var s0, s1, s2, s3;
      expander, s0 := SplitMix64(expander);
      expander, s1 := SplitMix64(expander);
      expander, s2 := SplitMix64(expander);
      expander, s3 := SplitMix64(expander);
      state := State(s0, s1, s2, s3);
    }

    /** Returns the next 64-bit value. */
    method NextU64() returns (result: Word)
      modifies this
      ensures state == Next(old(state)) && result == Output(old(state))
    {
      var State(s0, s1, s2, s3) := state;
      result := Mul(RotateLeft(Mul(s1, 5), 7), 9);
      var shifted := Shl(s1, 17);
      var n2 := Xor(s2, s0);
      var n3 := Xor(s3, s1);
      state := State(Xor(s0, n3), Xor(s1, n2), Xor(n2, shifted), RotateLeft(n3, 45));
    }

    /** Returns a value below a bound, without dividing; a bound of zero gives
        zero and draws nothing. */
    method Below(bound: Word) returns (r: Word)
      modifies this
      ensures bound > 0 ==> r < bound && state == Next(old(state))
      ensures bound > 0 ==> r == (Output(old(state)) * bound) / MODULUS
      ensures bound == 0 ==> r == 0 && state == old(state)
    {
      hide Output, Next;
      if bound == 0 {
        return 0;
      }
      var value := NextU64();
      ScaledBelow(value, bound);
      r := (value * bound) / MODULUS;
    }
  }

  lemma ScaledBelow(value: Word, bound: Word)
    requires bound > 0
    ensures 0 <= (value * bound) / MODULUS < bound
  {
    var q, r := (value * bound) / MODULUS, (value * bound) % MODULUS;
    assert value * bound == MODULUS * q + r;
    Distribute(bound, value, MODULUS - value);
    MulAtLeast(bound, MODULUS - value);
    if q >= bound {
      Distribute(MODULUS, bound, q - bound);
    }
    ProductSign(value, bound);
  }

  /** Every value below the bound is drawn from some word, and in order. */
  lemma BelowReachesEverything(bound: Word, r: Word) returns (value: Word)
    requires r < bound
    ensures (value * bound) / MODULUS == r
  {
    var n := r * MODULUS;
    var low, gap := n / bound, n % bound;
    assert n == bound * low + gap;
    if gap == 0 {
      value := Fits(low, bound, r, 0);
    } else {
      value := Fits(low + 1, bound, r, bound - gap);
    }
  }

  lemma Fits(v: int, bound: Word, r: Word, over: int) returns (value: Word)
    requires r < bound && 0 <= over < bound && bound * v == r * MODULUS + over
    ensures value == v && (value * bound) / MODULUS == r
  {
    Distribute(MODULUS, r, bound - r);
    MulAtLeast(MODULUS, bound - r);
    if v >= MODULUS {
      Distribute(bound, MODULUS, v - MODULUS);
      ProductSign(bound, v - MODULUS);
    }
    if v < 0 {
      MulAtLeast(bound, -v);
      ProductSign(r, MODULUS);
    }
    value := v;
    DivUnique(value * bound, MODULUS, r, over);
  }
}
