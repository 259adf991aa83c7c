/** The step mappings of SHA-3 bit by bit, as sections 3.2.1 to 3.2.5 of FIPS 202
    state them on A[x, y, z], and not lane by lane. */
module Sha3Bits {
  import opened Sha3

  const TOP: bv64 := 0x8000_0000_0000_0000

  /** The word whose only bit is bit `z`. */
  function Only(z: nat): bv64 {
    if z == 0 then 1 else Only(z - 1) << 1
  }

  function And(a: bv64, b: bv64): bv64 {
    a & b
  }

  /** Bit `z` of a lane, bit 0 the lowest. */
  predicate Bit(v: bv64, z: nat) {
    And(v, Only(z)) != 0
  }

  lemma OnlyTop()
    ensures Only(63) == TOP
  {
    assert Only(8) == 0x100;
    assert Only(16) == 0x1_0000;
    assert Only(32) == 0x1_0000_0000;
    assert Only(48) == 0x1_0000_0000_0000;
  }

  lemma {:induction false} OnlyIsSomething(z: nat)
    requires z < 64
    ensures Only(z) != 0
    decreases 64 - z
  {
    if z == 63 {
      OnlyTop();
    } else {
      OnlyIsSomething(z + 1);
    }
  }

  /** At most one bit is set. */
  predicate Lone(m: bv64) {
    m & (m - 1) == 0
  }

  lemma {:induction false} OnlyIsLone(z: nat)
    ensures Lone(Only(z))
  {
    if z > 0 {
      OnlyIsLone(z - 1);
      LoneDoubled(Only(z - 1));
      hide Lone;
    }
  }

  lemma LoneDoubled(m: bv64)
    requires Lone(m)
    ensures Lone(m << 1)
  {
  }

  lemma OnlyBelowTop(z: nat)
    requires z < 63
    ensures And(Only(z), TOP) == 0
  {
    OnlyIsLone(z);
    OnlyIsSomething(z + 1);
    assert Only(z + 1) == Only(z) << 1;
    hide Only, Lone, And;
    LoneBelowTop(Only(z));
  }

  lemma LoneBelowTop(m: bv64)
    requires Lone(m) && m << 1 != 0
    ensures And(m, TOP) == 0
  {
  }

  /** A word under a mask of one bit is nothing or the mask. */
  lemma Under(a: bv64, m: bv64)
    requires Lone(m)
    ensures And(a, m) == 0 || And(a, m) == m
  {
  }

  lemma XorOverClear(a: bv64, b: bv64, m: bv64)
    requires And(a, m) == 0
    ensures And(Xor(a, b), m) == And(b, m)
  {
  }

  lemma XorOverSet(a: bv64, b: bv64, m: bv64)
    requires And(a, m) == m && And(b, m) == 0
    ensures And(Xor(a, b), m) == m
  {
  }

  lemma XorOverBoth(a: bv64, b: bv64, m: bv64)
    requires And(a, m) == m && And(b, m) == m
    ensures And(Xor(a, b), m) == 0
  {
  }

  lemma AndNotUnder(a: bv64, b: bv64, m: bv64)
    ensures And(AndNot(a, b), m) == AndNot(And(a, m), And(b, m))
  {
  }

  lemma AndNotOfMasks(m: bv64)
    ensures AndNot(0, 0) == 0 && AndNot(0, m) == m && AndNot(m, 0) == 0 && AndNot(m, m) == 0
  {
  }

  lemma BitXor(a: bv64, b: bv64, z: nat)
    requires z < 64
    ensures Bit(Xor(a, b), z) <==> Bit(a, z) != Bit(b, z)
  {
    hide Only, And, Lone, Xor;
    OnlyIsLone(z);
    OnlyIsSomething(z);
    Under(a, Only(z));
    Under(b, Only(z));
    if !Bit(a, z) {
      XorOverClear(a, b, Only(z));
    } else if Bit(b, z) {
      XorOverBoth(a, b, Only(z));
    } else {
      XorOverSet(a, b, Only(z));
    }
  }

  lemma BitAndNot(a: bv64, b: bv64, z: nat)
    requires z < 64
    ensures Bit(AndNot(a, b), z) <==> !Bit(a, z) && Bit(b, z)
  {
    hide Only, And, Lone, AndNot;
    OnlyIsLone(z);
    OnlyIsSomething(z);
    Under(a, Only(z));
    Under(b, Only(z));
    AndNotUnder(a, b, Only(z));
    AndNotOfMasks(Only(z));
  }

  function Twice(m: bv64): bv64 {
    m << 1
  }

  lemma TurnUp(v: bv64, m: bv64)
    requires And(m, TOP) == 0
    ensures And(Turned(v), Twice(m)) == Twice(And(v, m))
  {
  }

  lemma TwiceUnder(a: bv64, m: bv64)
    requires And(m, TOP) == 0
    ensures Twice(And(a, m)) == 0 <==> And(a, m) == 0
  {
  }

  lemma TurnAround(v: bv64)
    ensures And(Turned(v), 1) == 0 <==> And(v, TOP) == 0
  {
  }

  lemma BitTurned(v: bv64, z: nat)
    requires z < 64
    ensures Bit(Turned(v), z) == Bit(v, (z + 63) % 64)
  {
    if z == 0 {
      OnlyTop();
      assert Only(0) == 1;
      hide Only, Turned, And;
      TurnAround(v);
    } else {
      OnlyBelowTop(z - 1);
      assert Only(z) == Twice(Only(z - 1));
      hide Only, Turned, Twice, And;
      TurnUp(v, Only(z - 1));
      TwiceUnder(v, Only(z - 1));
    }
  }

  /** Turning a lane left moves each bit up and the top ones round. */
  lemma {:induction false} RotMovesBits(v: bv64, n: nat, z: nat)
    requires n < 64 && z < 64
    ensures Bit(Rot(v, n), z) == Bit(v, (z + 64 - n) % 64)
  {
    hide Bit;
    if n > 0 {
      hide Turned;
      BitTurned(Rot(v, n - 1), z);
      RotMovesBits(v, n - 1, (z + 63) % 64);
    }
  }

  // ----- The step mappings on A[x, y, z] -----

  /** A[x, y, z]. */
  predicate At(a: Lanes, x: nat, y: nat, z: nat)
    requires x < 5 && y < 5 && z < 64
  {
    Bit(a[x + 5 * y], z)
  }

  /** C[x, z]: the parity of a column. */
  predicate Column(a: Lanes, x: nat, z: nat)
    requires x < 5 && z < 64
  {
    At(a, x, 0, z) != (At(a, x, 1, z) != (At(a, x, 2, z) != (At(a, x, 3, z) != At(a, x, 4, z))))
  }

  lemma BitParity(a: Lanes, x: nat, z: nat)
    requires x < 5 && z < 64
    ensures Bit(Parity(a, x), z) == Column(a, x, z)
  {
    hide Bit, Xor;
    var two := Xor(a[x], a[x + 5]);
    var three := Xor(two, a[x + 10]);
    BitXor(a[x], a[x + 5], z);
    BitXor(two, a[x + 10], z);
    BitXor(three, a[x + 15], z);
    BitXor(Xor(three, a[x + 15]), a[x + 20], z);
  }

  /** Section 3.2.1: each bit takes in the parities of two columns, the one to the
      left at the same place and the one to the right one place down. */
  lemma ThetaBits(a: Lanes, x: nat, y: nat, z: nat)
    requires x < 5 && y < 5 && z < 64
    ensures At(Theta(a), x, y, z)
       <==> At(a, x, y, z) != (Column(a, (x + 4) % 5, z) != Column(a, (x + 1) % 5, (z + 63) % 64))
  {
    hide Bit, Xor, Rot, Parity, Column, Mixed;
    BitMixed(a, x, z);
    assert (x + 5 * y) % 5 == x;
    BitXor(a[x + 5 * y], Mixed(a, x), z);
  }

  lemma BitMixed(a: Lanes, x: nat, z: nat)
    requires x < 5 && z < 64
    ensures Bit(Mixed(a, x), z) <==> Column(a, (x + 4) % 5, z) != Column(a, (x + 1) % 5, (z + 63) % 64)
  {
    hide Bit, Xor, Rot, Parity, Column;
    var left, right := Parity(a, (x + 4) % 5), Parity(a, (x + 1) % 5);
    BitParity(a, (x + 4) % 5, z);
    BitParity(a, (x + 1) % 5, (z + 63) % 64);
    RotMovesBits(right, 1, z);
    BitXor(left, Rot(right, 1), z);
  }

  /** Section 3.2.2: lane (0, 0) stays; the lane the walk reaches at step `t` has
      each bit come from (t + 1)(t + 2) / 2 places down. */
  lemma RhoBits(a: Lanes, t: nat, x: nat, y: nat, z: nat)
    requires t < 24 && z < 64 && x < 5 && y < 5 && Walk(t) == x + 5 * y
    ensures At(Rho(a), x, y, z) == At(a, x, y, (z + 64 - (t + 1) * (t + 2) / 2 % 64) % 64)
    ensures At(Rho(a), 0, 0, z) == At(a, 0, 0, z)
  {
    hide Bit, Rot, Walk;
    StepOfIsFirst(t, 0);
    RotMovesBits(a[x + 5 * y], OffsetAt(t), z);
    WalkMissesTheOrigin(StepOf(0, 0));
  }

  /** Lane (0, 0) is not on the walk. */
  lemma {:induction false} WalkMissesTheOrigin(t: nat)
    ensures Walk(t) != 0
  {
    if t > 0 {
      WalkMissesTheOrigin(t - 1);
      hide Walk, PiSource;
      PiGoesBack(t - 1);
      PiHoldsZero(Walk(t));
    }
  }

  /** Section 3.2.3: lane (x, y) comes from lane (x + 3y, x). */
  lemma PiBits(a: Lanes, x: nat, y: nat, z: nat)
    requires x < 5 && y < 5 && z < 64
    ensures At(Pi(a), x, y, z) == At(a, (x + 3 * y) % 5, x, z)
  {
    hide Bit;
    assert (x + 5 * y) % 5 == x && (x + 5 * y) / 5 == y;
  }

  /** Section 3.2.4: a bit changes where the next of its row is clear and the one
      after that is set. */
  lemma ChiBits(a: Lanes, x: nat, y: nat, z: nat)
    requires x < 5 && y < 5 && z < 64
    ensures At(Chi(a), x, y, z)
       <==> At(a, x, y, z) != (!At(a, (x + 1) % 5, y, z) && At(a, (x + 2) % 5, y, z))
  {
    hide Bit, Xor, AndNot;
    var i := x + 5 * y;
    assert i % 5 == x && i / 5 == y;
    BitAndNot(a[Right(i, 1)], a[Right(i, 2)], z);
    BitXor(a[i], AndNot(a[Right(i, 1)], a[Right(i, 2)]), z);
  }

  /** Section 3.2.5: only lane (0, 0) takes in the round constant. */
  lemma IotaBits(a: Lanes, round: nat, x: nat, y: nat, z: nat)
    requires round < 24 && x < 5 && y < 5 && z < 64
    ensures At(Iota(a, round), x, y, z)
       <==> At(a, x, y, z) != (x == 0 && y == 0 && Bit(RoundConstant(round), z))
  {
    hide Bit, Xor, RoundConstant;
    BitXor(a[0], RoundConstant(round), z);
  }
}
