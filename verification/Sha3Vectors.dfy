/** A published digest, that of "abc" at 256 bits, computed round by round. One round
    on known lanes is a handful of exclusive ors, rotations and masks; here that is
    shown of any lanes, and then the 24 states the message goes through are given and
    each is shown to follow from the one before. What is left is the padding, which
    makes the message one block, and reading four lanes out as bytes. A table of
    constants or offsets with one entry wrong, or a rotation the other way, gives
    another digest. */
module Sha3Vectors {
  import opened ByteStrings
  import opened Sha3
  import opened Sha3Bits

  type Row = s: seq<bv64> | |s| == 5 witness [0, 0, 0, 0, 0]

  /** A state row by row. */
  function State(r0: Row, r1: Row, r2: Row, r3: Row, r4: Row): (a: Lanes)
    ensures a[0] == r0[0] && a[1] == r0[1] && a[2] == r0[2] && a[3] == r0[3] && a[4] == r0[4]
    ensures a[5] == r1[0] && a[6] == r1[1] && a[7] == r1[2] && a[8] == r1[3] && a[9] == r1[4]
    ensures a[10] == r2[0] && a[11] == r2[1] && a[12] == r2[2] && a[13] == r2[3] && a[14] == r2[4]
    ensures a[15] == r3[0] && a[16] == r3[1] && a[17] == r3[2] && a[18] == r3[3] && a[19] == r3[4]
    ensures a[20] == r4[0] && a[21] == r4[1] && a[22] == r4[2] && a[23] == r4[3] && a[24] == r4[4]
  {
    r0 + r1 + r2 + r3 + r4
  }

  // ----- One round, lane by lane -----

  lemma NoTurn(v: bv64)
    ensures Rot(v, 0) == v
  {
  }

  lemma Next(v: bv64, n: nat, u: bv64, w: bv64)
    requires n < 63 && Rot(v, n) == u && Turned(u) == w
    ensures Rot(v, n + 1) == w
  {
  }

  lemma RotTo16(v: bv64)
    ensures Rot(v, 1) == v.RotateLeft(1) && Rot(v, 2) == v.RotateLeft(2) && Rot(v, 3) == v.RotateLeft(3)
    ensures Rot(v, 6) == v.RotateLeft(6) && Rot(v, 8) == v.RotateLeft(8) && Rot(v, 10) == v.RotateLeft(10)
    ensures Rot(v, 14) == v.RotateLeft(14) && Rot(v, 15) == v.RotateLeft(15) && Rot(v, 16) == v.RotateLeft(16)
  {
    NoTurn(v);
    hide Rot;
    Next(v, 0, v, v.RotateLeft(1));
    Next(v, 1, v.RotateLeft(1), v.RotateLeft(2));
    Next(v, 2, v.RotateLeft(2), v.RotateLeft(3));
    Next(v, 3, v.RotateLeft(3), v.RotateLeft(4));
    Next(v, 4, v.RotateLeft(4), v.RotateLeft(5));
    Next(v, 5, v.RotateLeft(5), v.RotateLeft(6));
    Next(v, 6, v.RotateLeft(6), v.RotateLeft(7));
    Next(v, 7, v.RotateLeft(7), v.RotateLeft(8));
    Next(v, 8, v.RotateLeft(8), v.RotateLeft(9));
    Next(v, 9, v.RotateLeft(9), v.RotateLeft(10));
    Next(v, 10, v.RotateLeft(10), v.RotateLeft(11));
    Next(v, 11, v.RotateLeft(11), v.RotateLeft(12));
    Next(v, 12, v.RotateLeft(12), v.RotateLeft(13));
    Next(v, 13, v.RotateLeft(13), v.RotateLeft(14));
    Next(v, 14, v.RotateLeft(14), v.RotateLeft(15));
    Next(v, 15, v.RotateLeft(15), v.RotateLeft(16));
  }

  lemma RotTo32(v: bv64)
    ensures Rot(v, 18) == v.RotateLeft(18) && Rot(v, 20) == v.RotateLeft(20) && Rot(v, 21) == v.RotateLeft(21)
    ensures Rot(v, 25) == v.RotateLeft(25) && Rot(v, 27) == v.RotateLeft(27) && Rot(v, 28) == v.RotateLeft(28)
    ensures Rot(v, 32) == v.RotateLeft(32)
  {
    RotTo16(v);
    hide Rot;
    Next(v, 16, v.RotateLeft(16), v.RotateLeft(17));
    Next(v, 17, v.RotateLeft(17), v.RotateLeft(18));
    Next(v, 18, v.RotateLeft(18), v.RotateLeft(19));
    Next(v, 19, v.RotateLeft(19), v.RotateLeft(20));
    Next(v, 20, v.RotateLeft(20), v.RotateLeft(21));
    Next(v, 21, v.RotateLeft(21), v.RotateLeft(22));
    Next(v, 22, v.RotateLeft(22), v.RotateLeft(23));
    Next(v, 23, v.RotateLeft(23), v.RotateLeft(24));
    Next(v, 24, v.RotateLeft(24), v.RotateLeft(25));
    Next(v, 25, v.RotateLeft(25), v.RotateLeft(26));
    Next(v, 26, v.RotateLeft(26), v.RotateLeft(27));
    Next(v, 27, v.RotateLeft(27), v.RotateLeft(28));
    Next(v, 28, v.RotateLeft(28), v.RotateLeft(29));
    Next(v, 29, v.RotateLeft(29), v.RotateLeft(30));
    Next(v, 30, v.RotateLeft(30), v.RotateLeft(31));
    Next(v, 31, v.RotateLeft(31), v.RotateLeft(32));
  }

  lemma RotTo48(v: bv64)
    ensures Rot(v, 36) == v.RotateLeft(36) && Rot(v, 39) == v.RotateLeft(39) && Rot(v, 41) == v.RotateLeft(41)
    ensures Rot(v, 43) == v.RotateLeft(43) && Rot(v, 44) == v.RotateLeft(44) && Rot(v, 45) == v.RotateLeft(45)
    ensures Rot(v, 48) == v.RotateLeft(48)
  {
    RotTo32(v);
    hide Rot;
    Next(v, 32, v.RotateLeft(32), v.RotateLeft(33));
    Next(v, 33, v.RotateLeft(33), v.RotateLeft(34));
    Next(v, 34, v.RotateLeft(34), v.RotateLeft(35));
    Next(v, 35, v.RotateLeft(35), v.RotateLeft(36));
    Next(v, 36, v.RotateLeft(36), v.RotateLeft(37));
    Next(v, 37, v.RotateLeft(37), v.RotateLeft(38));
    Next(v, 38, v.RotateLeft(38), v.RotateLeft(39));
    Next(v, 39, v.RotateLeft(39), v.RotateLeft(40));
    Next(v, 40, v.RotateLeft(40), v.RotateLeft(41));
    Next(v, 41, v.RotateLeft(41), v.RotateLeft(42));
    Next(v, 42, v.RotateLeft(42), v.RotateLeft(43));
    Next(v, 43, v.RotateLeft(43), v.RotateLeft(44));
    Next(v, 44, v.RotateLeft(44), v.RotateLeft(45));
    Next(v, 45, v.RotateLeft(45), v.RotateLeft(46));
    Next(v, 46, v.RotateLeft(46), v.RotateLeft(47));
    Next(v, 47, v.RotateLeft(47), v.RotateLeft(48));
  }

  lemma RotTo63(v: bv64)
    ensures Rot(v, 55) == v.RotateLeft(55) && Rot(v, 56) == v.RotateLeft(56) && Rot(v, 61) == v.RotateLeft(61)
    ensures Rot(v, 62) == v.RotateLeft(62) && Rot(v, 63) == v.RotateLeft(63)
  {
    RotTo48(v);
    hide Rot;
    Next(v, 48, v.RotateLeft(48), v.RotateLeft(49));
    Next(v, 49, v.RotateLeft(49), v.RotateLeft(50));
    Next(v, 50, v.RotateLeft(50), v.RotateLeft(51));
    Next(v, 51, v.RotateLeft(51), v.RotateLeft(52));
    Next(v, 52, v.RotateLeft(52), v.RotateLeft(53));
    Next(v, 53, v.RotateLeft(53), v.RotateLeft(54));
    Next(v, 54, v.RotateLeft(54), v.RotateLeft(55));
    Next(v, 55, v.RotateLeft(55), v.RotateLeft(56));
    Next(v, 56, v.RotateLeft(56), v.RotateLeft(57));
    Next(v, 57, v.RotateLeft(57), v.RotateLeft(58));
    Next(v, 58, v.RotateLeft(58), v.RotateLeft(59));
    Next(v, 59, v.RotateLeft(59), v.RotateLeft(60));
    Next(v, 60, v.RotateLeft(60), v.RotateLeft(61));
    Next(v, 61, v.RotateLeft(61), v.RotateLeft(62));
    Next(v, 62, v.RotateLeft(62), v.RotateLeft(63));
  }

  lemma {:induction false} RhoTurns(a: Lanes, lane: nat)
    requires 1 <= lane < 25
    ensures StepInTable(lane) < 24 && Rho(a)[lane] == Rot(a[lane], Rotation(StepInTable(lane)))
  {
    hide Rot, Rotation, StepInTable, StepOf, Walk, OffsetAt, PiLane;
    EveryLaneIsThere(lane);
    var t := StepInTable(lane);
    if t == 0 {
      FirstOfTheWalk();
    } else {
      PiLanesAreTheWalk(t - 1);
    }
    StepOfIsFirst(t, 0);
    RotationsAreOffsets(t);
  }

  /** Turning left by one of the standard's offsets. */
  function LeftBy(v: bv64, n: nat): bv64 {
    if n == 1 then v.RotateLeft(1)
    else if n == 2 then v.RotateLeft(2)
    else if n == 3 then v.RotateLeft(3)
    else if n == 6 then v.RotateLeft(6)
    else if n == 8 then v.RotateLeft(8)
    else if n == 10 then v.RotateLeft(10)
    else if n == 14 then v.RotateLeft(14)
    else if n == 15 then v.RotateLeft(15)
    else if n == 18 then v.RotateLeft(18)
    else if n == 20 then v.RotateLeft(20)
    else if n == 21 then v.RotateLeft(21)
    else if n == 25 then v.RotateLeft(25)
    else if n == 27 then v.RotateLeft(27)
    else if n == 28 then v.RotateLeft(28)
    else if n == 36 then v.RotateLeft(36)
    else if n == 39 then v.RotateLeft(39)
    else if n == 41 then v.RotateLeft(41)
    else if n == 43 then v.RotateLeft(43)
    else if n == 44 then v.RotateLeft(44)
    else if n == 45 then v.RotateLeft(45)
    else if n == 55 then v.RotateLeft(55)
    else if n == 56 then v.RotateLeft(56)
    else if n == 61 then v.RotateLeft(61)
    else if n == 62 then v.RotateLeft(62)
    else v
  }

  lemma LeftByIs(v: bv64, step: nat)
    requires step < 24
    ensures LeftBy(v, Rotation(step)) == Rot(v, Rotation(step))
  {
    hide Rot;
    RotTo16(v);
    RotTo32(v);
    RotTo48(v);
    RotTo63(v);
    OneOfThem(step);
  }

  lemma OneOfThem(step: nat)
    requires step < 24
    ensures Rotation(step) in {1, 2, 3, 6, 8, 10, 14, 15, 18, 20, 21, 25, 27, 28, 36, 39, 41, 43, 44, 45, 55, 56, 61, 62}
  {
  }

  /** The five values theta mixes into the columns. */
  predicate Mixes(a: Lanes, d: Row) {
    && d[0] == Xor(Parity(a, 4), Turned(Parity(a, 1)))
    && d[1] == Xor(Parity(a, 0), Turned(Parity(a, 2)))
    && d[2] == Xor(Parity(a, 1), Turned(Parity(a, 3)))
    && d[3] == Xor(Parity(a, 2), Turned(Parity(a, 4)))
    && d[4] == Xor(Parity(a, 3), Turned(Parity(a, 0)))
  }

  lemma MixedIsTurned(a: Lanes, x: nat)
    requires x < 5
    ensures Mixed(a, x) == Xor(Parity(a, (x + 4) % 5), Turned(Parity(a, (x + 1) % 5)))
  {
    hide Xor, Turned, Parity;
    var right := Parity(a, (x + 1) % 5);
    assert Rot(right, 0) == right;
  }

  lemma MixAt(a: Lanes, d: Row, x: nat)
    requires Mixes(a, d) && x < 5
    ensures d[x] == Xor(Parity(a, (x + 4) % 5), Turned(Parity(a, (x + 1) % 5)))
  {
    hide Xor, Turned, Parity;
    if x == 0 {
    } else if x == 1 {
    } else if x == 2 {
    } else if x == 3 {
    } else {
    }
  }

  lemma MixesAre(a: Lanes, d: Row)
    requires Mixes(a, d)
    ensures forall x :: 0 <= x < 5 ==> Mixed(a, x) == d[x]
  {
    hide Xor, Turned, Mixed, Mixes, Parity;
    forall x | 0 <= x < 5
      ensures Mixed(a, x) == d[x]
    {
      MixedIsTurned(a, x);
      MixAt(a, d, x);
    }
  }

  lemma MovedLane(a: Lanes, d: Row, lane: nat, from: nat)
    requires forall x :: 0 <= x < 5 ==> Mixed(a, x) == d[x]
    requires lane < 25 && from == PiSource(lane) && from > 0
    ensures Pi(Rho(Theta(a)))[lane] == LeftBy(Xor(a[from], d[from % 5]), TurnOf(from))
  {
    hide Rho, Rot, LeftBy, TurnOf, Rotation, StepInTable, Xor, Mixed, PiSource;
    RhoTurns(Theta(a), from);
    TurnIs(from);
    LeftByIs(Theta(a)[from], StepInTable(from));
  }

  lemma OriginStays(a: Lanes, d: Row)
    requires forall x :: 0 <= x < 5 ==> Mixed(a, x) == d[x]
    ensures Pi(Rho(Theta(a)))[0] == Xor(a[0], d[0])
  {
    hide Rot, Xor, Mixed, StepOf, Walk;
    WalkMissesTheOrigin(StepOf(0, 0));
  }

  /** How far each lane is turned. */
  function TurnOf(lane: nat): nat
    requires 1 <= lane < 25
  {
    if lane == 1 then 1
    else if lane == 2 then 62
    else if lane == 3 then 28
    else if lane == 4 then 27
    else if lane == 5 then 36
    else if lane == 6 then 44
    else if lane == 7 then 6
    else if lane == 8 then 55
    else if lane == 9 then 20
    else if lane == 10 then 3
    else if lane == 11 then 10
    else if lane == 12 then 43
    else if lane == 13 then 25
    else if lane == 14 then 39
    else if lane == 15 then 41
    else if lane == 16 then 45
    else if lane == 17 then 15
    else if lane == 18 then 21
    else if lane == 19 then 8
    else if lane == 20 then 18
    else if lane == 21 then 2
    else if lane == 22 then 61
    else if lane == 23 then 56
    else 14
  }

  lemma TurnIs(lane: nat)
    requires 1 <= lane < 25
    ensures StepInTable(lane) < 24 && TurnOf(lane) == Rotation(StepInTable(lane))
  {
  }

  lemma MovedRow0(a: Lanes, d: Row)
    requires forall x :: 0 <= x < 5 ==> Mixed(a, x) == d[x]
    ensures Pi(Rho(Theta(a)))[0] == Xor(a[0], d[0])
    ensures Pi(Rho(Theta(a)))[1] == LeftBy(Xor(a[6], d[1]), 44)
    ensures Pi(Rho(Theta(a)))[2] == LeftBy(Xor(a[12], d[2]), 43)
    ensures Pi(Rho(Theta(a)))[3] == LeftBy(Xor(a[18], d[3]), 21)
    ensures Pi(Rho(Theta(a)))[4] == LeftBy(Xor(a[24], d[4]), 14)
  {
    hide Rho, Pi, Theta, LeftBy, Xor, Mixed, Rotation, StepInTable;
    OriginStays(a, d);
    MovedLane(a, d, 1, 6);
    MovedLane(a, d, 2, 12);
    MovedLane(a, d, 3, 18);
    MovedLane(a, d, 4, 24);
  }

  lemma MovedRow1(a: Lanes, d: Row)
    requires forall x :: 0 <= x < 5 ==> Mixed(a, x) == d[x]
    ensures Pi(Rho(Theta(a)))[5] == LeftBy(Xor(a[3], d[3]), 28)
    ensures Pi(Rho(Theta(a)))[6] == LeftBy(Xor(a[9], d[4]), 20)
    ensures Pi(Rho(Theta(a)))[7] == LeftBy(Xor(a[10], d[0]), 3)
    ensures Pi(Rho(Theta(a)))[8] == LeftBy(Xor(a[16], d[1]), 45)
    ensures Pi(Rho(Theta(a)))[9] == LeftBy(Xor(a[22], d[2]), 61)
  {
    hide Rho, Pi, Theta, LeftBy, Xor, Mixed, Rotation, StepInTable;
    MovedLane(a, d, 5, 3);
    MovedLane(a, d, 6, 9);
    MovedLane(a, d, 7, 10);
    MovedLane(a, d, 8, 16);
    MovedLane(a, d, 9, 22);
  }

  lemma MovedRow2(a: Lanes, d: Row)
    requires forall x :: 0 <= x < 5 ==> Mixed(a, x) == d[x]
    ensures Pi(Rho(Theta(a)))[10] == LeftBy(Xor(a[1], d[1]), 1)
    ensures Pi(Rho(Theta(a)))[11] == LeftBy(Xor(a[7], d[2]), 6)
    ensures Pi(Rho(Theta(a)))[12] == LeftBy(Xor(a[13], d[3]), 25)
    ensures Pi(Rho(Theta(a)))[13] == LeftBy(Xor(a[19], d[4]), 8)
    ensures Pi(Rho(Theta(a)))[14] == LeftBy(Xor(a[20], d[0]), 18)
  {
    hide Rho, Pi, Theta, LeftBy, Xor, Mixed, Rotation, StepInTable;
    MovedLane(a, d, 10, 1);
    MovedLane(a, d, 11, 7);
    MovedLane(a, d, 12, 13);
    MovedLane(a, d, 13, 19);
    MovedLane(a, d, 14, 20);
  }

  lemma MovedRow3(a: Lanes, d: Row)
    requires forall x :: 0 <= x < 5 ==> Mixed(a, x) == d[x]
    ensures Pi(Rho(Theta(a)))[15] == LeftBy(Xor(a[4], d[4]), 27)
    ensures Pi(Rho(Theta(a)))[16] == LeftBy(Xor(a[5], d[0]), 36)
    ensures Pi(Rho(Theta(a)))[17] == LeftBy(Xor(a[11], d[1]), 10)
    ensures Pi(Rho(Theta(a)))[18] == LeftBy(Xor(a[17], d[2]), 15)
    ensures Pi(Rho(Theta(a)))[19] == LeftBy(Xor(a[23], d[3]), 56)
  {
    hide Rho, Pi, Theta, LeftBy, Xor, Mixed, Rotation, StepInTable;
    MovedLane(a, d, 15, 4);
    MovedLane(a, d, 16, 5);
    MovedLane(a, d, 17, 11);
    MovedLane(a, d, 18, 17);
    MovedLane(a, d, 19, 23);
  }

  lemma MovedRow4(a: Lanes, d: Row)
    requires forall x :: 0 <= x < 5 ==> Mixed(a, x) == d[x]
    ensures Pi(Rho(Theta(a)))[20] == LeftBy(Xor(a[2], d[2]), 62)
    ensures Pi(Rho(Theta(a)))[21] == LeftBy(Xor(a[8], d[3]), 55)
    ensures Pi(Rho(Theta(a)))[22] == LeftBy(Xor(a[14], d[4]), 39)
    ensures Pi(Rho(Theta(a)))[23] == LeftBy(Xor(a[15], d[0]), 41)
    ensures Pi(Rho(Theta(a)))[24] == LeftBy(Xor(a[21], d[1]), 2)
  {
    hide Rho, Pi, Theta, LeftBy, Xor, Mixed, Rotation, StepInTable;
    MovedLane(a, d, 20, 2);
    MovedLane(a, d, 21, 8);
    MovedLane(a, d, 22, 14);
    MovedLane(a, d, 23, 15);
    MovedLane(a, d, 24, 21);
  }

  function Turn0(v: bv64, d: bv64): (r: bv64)
    ensures r == Xor(v, d)
  {
    v ^ d
  }

  function Turn1(v: bv64, d: bv64): (r: bv64)
    ensures r == LeftBy(Xor(v, d), 1)
  {
    (v ^ d).RotateLeft(1)
  }

  function Turn2(v: bv64, d: bv64): (r: bv64)
    ensures r == LeftBy(Xor(v, d), 2)
  {
    (v ^ d).RotateLeft(2)
  }

  function Turn3(v: bv64, d: bv64): (r: bv64)
    ensures r == LeftBy(Xor(v, d), 3)
  {
    (v ^ d).RotateLeft(3)
  }

  function Turn6(v: bv64, d: bv64): (r: bv64)
    ensures r == LeftBy(Xor(v, d), 6)
  {
    (v ^ d).RotateLeft(6)
  }

  function Turn8(v: bv64, d: bv64): (r: bv64)
    ensures r == LeftBy(Xor(v, d), 8)
  {
    (v ^ d).RotateLeft(8)
  }

  function Turn10(v: bv64, d: bv64): (r: bv64)
    ensures r == LeftBy(Xor(v, d), 10)
  {
    (v ^ d).RotateLeft(10)
  }

  function Turn14(v: bv64, d: bv64): (r: bv64)
    ensures r == LeftBy(Xor(v, d), 14)
  {
    (v ^ d).RotateLeft(14)
  }

  function Turn15(v: bv64, d: bv64): (r: bv64)
    ensures r == LeftBy(Xor(v, d), 15)
  {
    (v ^ d).RotateLeft(15)
  }

  function Turn18(v: bv64, d: bv64): (r: bv64)
    ensures r == LeftBy(Xor(v, d), 18)
  {
    (v ^ d).RotateLeft(18)
  }

  function Turn20(v: bv64, d: bv64): (r: bv64)
    ensures r == LeftBy(Xor(v, d), 20)
  {
    (v ^ d).RotateLeft(20)
  }

  function Turn21(v: bv64, d: bv64): (r: bv64)
    ensures r == LeftBy(Xor(v, d), 21)
  {
    (v ^ d).RotateLeft(21)
  }

  function Turn25(v: bv64, d: bv64): (r: bv64)
    ensures r == LeftBy(Xor(v, d), 25)
  {
    (v ^ d).RotateLeft(25)
  }

  function Turn27(v: bv64, d: bv64): (r: bv64)
    ensures r == LeftBy(Xor(v, d), 27)
  {
    (v ^ d).RotateLeft(27)
  }

  function Turn28(v: bv64, d: bv64): (r: bv64)
    ensures r == LeftBy(Xor(v, d), 28)
  {
    (v ^ d).RotateLeft(28)
  }

  function Turn36(v: bv64, d: bv64): (r: bv64)
    ensures r == LeftBy(Xor(v, d), 36)
  {
    (v ^ d).RotateLeft(36)
  }

  function Turn39(v: bv64, d: bv64): (r: bv64)
    ensures r == LeftBy(Xor(v, d), 39)
  {
    (v ^ d).RotateLeft(39)
  }

  function Turn41(v: bv64, d: bv64): (r: bv64)
    ensures r == LeftBy(Xor(v, d), 41)
  {
    (v ^ d).RotateLeft(41)
  }

  function Turn43(v: bv64, d: bv64): (r: bv64)
    ensures r == LeftBy(Xor(v, d), 43)
  {
    (v ^ d).RotateLeft(43)
  }

  function Turn44(v: bv64, d: bv64): (r: bv64)
    ensures r == LeftBy(Xor(v, d), 44)
  {
    (v ^ d).RotateLeft(44)
  }

  function Turn45(v: bv64, d: bv64): (r: bv64)
    ensures r == LeftBy(Xor(v, d), 45)
  {
    (v ^ d).RotateLeft(45)
  }

  function Turn55(v: bv64, d: bv64): (r: bv64)
    ensures r == LeftBy(Xor(v, d), 55)
  {
    (v ^ d).RotateLeft(55)
  }

  function Turn56(v: bv64, d: bv64): (r: bv64)
    ensures r == LeftBy(Xor(v, d), 56)
  {
    (v ^ d).RotateLeft(56)
  }

  function Turn61(v: bv64, d: bv64): (r: bv64)
    ensures r == LeftBy(Xor(v, d), 61)
  {
    (v ^ d).RotateLeft(61)
  }

  function Turn62(v: bv64, d: bv64): (r: bv64)
    ensures r == LeftBy(Xor(v, d), 62)
  {
    (v ^ d).RotateLeft(62)
  }

  /** What row 0 becomes by chi. */
  predicate Row0Becomes(a: Lanes, d: Row, b: Lanes, rc: bv64) {
    var c0 := Turn0(a[0], d[0]);
    var c1 := Turn44(a[6], d[1]);
    var c2 := Turn43(a[12], d[2]);
    var c3 := Turn21(a[18], d[3]);
    var c4 := Turn14(a[24], d[4]);
    && b[0] == Xor(Xor(c0, AndNot(c1, c2)), rc)
    && b[1] == Xor(c1, AndNot(c2, c3))
    && b[2] == Xor(c2, AndNot(c3, c4))
    && b[3] == Xor(c3, AndNot(c4, c0))
    && b[4] == Xor(c4, AndNot(c0, c1))
  }

  lemma Row0Is(a: Lanes, d: Row, b: Lanes, rc: bv64)
    requires (forall x :: 0 <= x < 5 ==> Mixed(a, x) == d[x]) && Row0Becomes(a, d, b, rc)
    ensures var c := Pi(Rho(Theta(a)));
            && b[0] == Xor(Xor(c[0], AndNot(c[1], c[2])), rc)
            && b[1] == Xor(c[1], AndNot(c[2], c[3]))
            && b[2] == Xor(c[2], AndNot(c[3], c[4]))
            && b[3] == Xor(c[3], AndNot(c[4], c[0]))
            && b[4] == Xor(c[4], AndNot(c[0], c[1]))
  {
    hide Mixed, Theta, Rho, Pi, Xor, AndNot, LeftBy;
    hide Turn0, Turn44, Turn43, Turn21, Turn14;
    MovedRow0(a, d);
  }

  /** What row 1 becomes by chi. */
  predicate Row1Becomes(a: Lanes, d: Row, b: Lanes, rc: bv64) {
    var c0 := Turn28(a[3], d[3]);
    var c1 := Turn20(a[9], d[4]);
    var c2 := Turn3(a[10], d[0]);
    var c3 := Turn45(a[16], d[1]);
    var c4 := Turn61(a[22], d[2]);
    && b[5] == Xor(c0, AndNot(c1, c2))
    && b[6] == Xor(c1, AndNot(c2, c3))
    && b[7] == Xor(c2, AndNot(c3, c4))
    && b[8] == Xor(c3, AndNot(c4, c0))
    && b[9] == Xor(c4, AndNot(c0, c1))
  }

  lemma Row1Is(a: Lanes, d: Row, b: Lanes, rc: bv64)
    requires (forall x :: 0 <= x < 5 ==> Mixed(a, x) == d[x]) && Row1Becomes(a, d, b, rc)
    ensures var c := Pi(Rho(Theta(a)));
            && b[5] == Xor(c[5], AndNot(c[6], c[7]))
            && b[6] == Xor(c[6], AndNot(c[7], c[8]))
            && b[7] == Xor(c[7], AndNot(c[8], c[9]))
            && b[8] == Xor(c[8], AndNot(c[9], c[5]))
            && b[9] == Xor(c[9], AndNot(c[5], c[6]))
  {
    hide Mixed, Theta, Rho, Pi, Xor, AndNot, LeftBy;
    hide Turn28, Turn20, Turn3, Turn45, Turn61;
    MovedRow1(a, d);
  }

  /** What row 2 becomes by chi. */
  predicate Row2Becomes(a: Lanes, d: Row, b: Lanes, rc: bv64) {
    var c0 := Turn1(a[1], d[1]);
    var c1 := Turn6(a[7], d[2]);
    var c2 := Turn25(a[13], d[3]);
    var c3 := Turn8(a[19], d[4]);
    var c4 := Turn18(a[20], d[0]);
    && b[10] == Xor(c0, AndNot(c1, c2))
    && b[11] == Xor(c1, AndNot(c2, c3))
    && b[12] == Xor(c2, AndNot(c3, c4))
    && b[13] == Xor(c3, AndNot(c4, c0))
    && b[14] == Xor(c4, AndNot(c0, c1))
  }

  lemma Row2Is(a: Lanes, d: Row, b: Lanes, rc: bv64)
    requires (forall x :: 0 <= x < 5 ==> Mixed(a, x) == d[x]) && Row2Becomes(a, d, b, rc)
    ensures var c := Pi(Rho(Theta(a)));
            && b[10] == Xor(c[10], AndNot(c[11], c[12]))
            && b[11] == Xor(c[11], AndNot(c[12], c[13]))
            && b[12] == Xor(c[12], AndNot(c[13], c[14]))
            && b[13] == Xor(c[13], AndNot(c[14], c[10]))
            && b[14] == Xor(c[14], AndNot(c[10], c[11]))
  {
    hide Mixed, Theta, Rho, Pi, Xor, AndNot, LeftBy;
    hide Turn1, Turn6, Turn25, Turn8, Turn18;
    MovedRow2(a, d);
  }

  /** What row 3 becomes by chi. */
  predicate Row3Becomes(a: Lanes, d: Row, b: Lanes, rc: bv64) {
    var c0 := Turn27(a[4], d[4]);
    var c1 := Turn36(a[5], d[0]);
    var c2 := Turn10(a[11], d[1]);
    var c3 := Turn15(a[17], d[2]);
    var c4 := Turn56(a[23], d[3]);
    && b[15] == Xor(c0, AndNot(c1, c2))
    && b[16] == Xor(c1, AndNot(c2, c3))
    && b[17] == Xor(c2, AndNot(c3, c4))
    && b[18] == Xor(c3, AndNot(c4, c0))
    && b[19] == Xor(c4, AndNot(c0, c1))
  }

  lemma Row3Is(a: Lanes, d: Row, b: Lanes, rc: bv64)
    requires (forall x :: 0 <= x < 5 ==> Mixed(a, x) == d[x]) && Row3Becomes(a, d, b, rc)
    ensures var c := Pi(Rho(Theta(a)));
            && b[15] == Xor(c[15], AndNot(c[16], c[17]))
            && b[16] == Xor(c[16], AndNot(c[17], c[18]))
            && b[17] == Xor(c[17], AndNot(c[18], c[19]))
            && b[18] == Xor(c[18], AndNot(c[19], c[15]))
            && b[19] == Xor(c[19], AndNot(c[15], c[16]))
  {
    hide Mixed, Theta, Rho, Pi, Xor, AndNot, LeftBy;
    hide Turn27, Turn36, Turn10, Turn15, Turn56;
    MovedRow3(a, d);
  }

  /** What row 4 becomes by chi. */
  predicate Row4Becomes(a: Lanes, d: Row, b: Lanes, rc: bv64) {
    var c0 := Turn62(a[2], d[2]);
    var c1 := Turn55(a[8], d[3]);
    var c2 := Turn39(a[14], d[4]);
    var c3 := Turn41(a[15], d[0]);
    var c4 := Turn2(a[21], d[1]);
    && b[20] == Xor(c0, AndNot(c1, c2))
    && b[21] == Xor(c1, AndNot(c2, c3))
    && b[22] == Xor(c2, AndNot(c3, c4))
    && b[23] == Xor(c3, AndNot(c4, c0))
    && b[24] == Xor(c4, AndNot(c0, c1))
  }

  lemma Row4Is(a: Lanes, d: Row, b: Lanes, rc: bv64)
    requires (forall x :: 0 <= x < 5 ==> Mixed(a, x) == d[x]) && Row4Becomes(a, d, b, rc)
    ensures var c := Pi(Rho(Theta(a)));
            && b[20] == Xor(c[20], AndNot(c[21], c[22]))
            && b[21] == Xor(c[21], AndNot(c[22], c[23]))
            && b[22] == Xor(c[22], AndNot(c[23], c[24]))
            && b[23] == Xor(c[23], AndNot(c[24], c[20]))
            && b[24] == Xor(c[24], AndNot(c[20], c[21]))
  {
    hide Mixed, Theta, Rho, Pi, Xor, AndNot, LeftBy;
    hide Turn62, Turn55, Turn39, Turn41, Turn2;
    MovedRow4(a, d);
  }

  function ConstantOf(k: nat): bv64
    requires k < 24
  {
    if k == 0 then 0x0000000000000001
    else if k == 1 then 0x0000000000008082
    else if k == 2 then 0x800000000000808a
    else if k == 3 then 0x8000000080008000
    else if k == 4 then 0x000000000000808b
    else if k == 5 then 0x0000000080000001
    else if k == 6 then 0x8000000080008081
    else if k == 7 then 0x8000000000008009
    else if k == 8 then 0x000000000000008a
    else if k == 9 then 0x0000000000000088
    else if k == 10 then 0x0000000080008009
    else if k == 11 then 0x000000008000000a
    else if k == 12 then 0x000000008000808b
    else if k == 13 then 0x800000000000008b
    else if k == 14 then 0x8000000000008089
    else if k == 15 then 0x8000000000008003
    else if k == 16 then 0x8000000000008002
    else if k == 17 then 0x8000000000000080
    else if k == 18 then 0x000000000000800a
    else if k == 19 then 0x800000008000000a
    else if k == 20 then 0x8000000080008081
    else if k == 21 then 0x8000000000008080
    else if k == 22 then 0x0000000080000001
    else 0x8000000080008008
  }

  lemma ConstantIsBefore12(k: nat)
    requires k < 12
    ensures RoundConstant(k) == ConstantOf(k)
  {
  }

  lemma ConstantIsFrom12(k: nat)
    requires 12 <= k < 24
    ensures RoundConstant(k) == ConstantOf(k)
  {
  }

  lemma ConstantIs(k: nat)
    requires k < 24
    ensures RoundConstant(k) == ConstantOf(k)
  {
    hide RoundConstant, ConstantOf;
    if k < 12 {
      ConstantIsBefore12(k);
    } else {
      ConstantIsFrom12(k);
    }
  }

  /** Round `k` on known lanes, as exclusive ors and rotations alone. */
  predicate IsRound(a: Lanes, d: Row, k: nat, b: Lanes)
    requires k < 24
  {
    && Mixes(a, d)
    && Row0Becomes(a, d, b, ConstantOf(k)) && Row1Becomes(a, d, b, 0) && Row2Becomes(a, d, b, 0)
    && Row3Becomes(a, d, b, 0) && Row4Becomes(a, d, b, 0)
  }

  lemma RoundIs(a: Lanes, d: Row, k: nat, b: Lanes)
    requires k < 24 && IsRound(a, d, k, b)
    ensures KeccakRound(a, k) == b
  {
    hide Xor, AndNot, Mixes, Mixed, Theta, Rho, Pi, RoundConstant, ConstantOf, ChiLane;
    hide Row0Becomes, Row1Becomes, Row2Becomes, Row3Becomes, Row4Becomes;
    MixesAre(a, d);
    ConstantIs(k);
    Row0Is(a, d, b, ConstantOf(k));
    Row1Is(a, d, b, 0);
    Row2Is(a, d, b, 0);
    Row3Is(a, d, b, 0);
    Row4Is(a, d, b, 0);
    var c := Pi(Rho(Theta(a)));
    ChiRow0(c);
    ChiRow1(c);
    ChiRow2(c);
    ChiRow3(c);
    ChiRow4(c);
  }

  lemma ChiRow0(c: Lanes)
    ensures ChiLane(c, 0) == Xor(c[0], AndNot(c[1], c[2]))
    ensures ChiLane(c, 1) == Xor(c[1], AndNot(c[2], c[3]))
    ensures ChiLane(c, 2) == Xor(c[2], AndNot(c[3], c[4]))
    ensures ChiLane(c, 3) == Xor(c[3], AndNot(c[4], c[0]))
    ensures ChiLane(c, 4) == Xor(c[4], AndNot(c[0], c[1]))
  {
    hide Xor, AndNot, ChiLane;
    ChiInRow(c, 0, 0);
    ChiInRow(c, 0, 1);
    ChiInRow(c, 0, 2);
    ChiInRow(c, 0, 3);
    ChiInRow(c, 0, 4);
  }

  lemma ChiRow1(c: Lanes)
    ensures ChiLane(c, 5) == Xor(c[5], AndNot(c[6], c[7]))
    ensures ChiLane(c, 6) == Xor(c[6], AndNot(c[7], c[8]))
    ensures ChiLane(c, 7) == Xor(c[7], AndNot(c[8], c[9]))
    ensures ChiLane(c, 8) == Xor(c[8], AndNot(c[9], c[5]))
    ensures ChiLane(c, 9) == Xor(c[9], AndNot(c[5], c[6]))
  {
    hide Xor, AndNot, ChiLane;
    ChiInRow(c, 1, 0);
    ChiInRow(c, 1, 1);
    ChiInRow(c, 1, 2);
    ChiInRow(c, 1, 3);
    ChiInRow(c, 1, 4);
  }

  lemma ChiRow2(c: Lanes)
    ensures ChiLane(c, 10) == Xor(c[10], AndNot(c[11], c[12]))
    ensures ChiLane(c, 11) == Xor(c[11], AndNot(c[12], c[13]))
    ensures ChiLane(c, 12) == Xor(c[12], AndNot(c[13], c[14]))
    ensures ChiLane(c, 13) == Xor(c[13], AndNot(c[14], c[10]))
    ensures ChiLane(c, 14) == Xor(c[14], AndNot(c[10], c[11]))
  {
    hide Xor, AndNot, ChiLane;
    ChiInRow(c, 2, 0);
    ChiInRow(c, 2, 1);
    ChiInRow(c, 2, 2);
    ChiInRow(c, 2, 3);
    ChiInRow(c, 2, 4);
  }

  lemma ChiRow3(c: Lanes)
    ensures ChiLane(c, 15) == Xor(c[15], AndNot(c[16], c[17]))
    ensures ChiLane(c, 16) == Xor(c[16], AndNot(c[17], c[18]))
    ensures ChiLane(c, 17) == Xor(c[17], AndNot(c[18], c[19]))
    ensures ChiLane(c, 18) == Xor(c[18], AndNot(c[19], c[15]))
    ensures ChiLane(c, 19) == Xor(c[19], AndNot(c[15], c[16]))
  {
    hide Xor, AndNot, ChiLane;
    ChiInRow(c, 3, 0);
    ChiInRow(c, 3, 1);
    ChiInRow(c, 3, 2);
    ChiInRow(c, 3, 3);
    ChiInRow(c, 3, 4);
  }

  lemma ChiRow4(c: Lanes)
    ensures ChiLane(c, 20) == Xor(c[20], AndNot(c[21], c[22]))
    ensures ChiLane(c, 21) == Xor(c[21], AndNot(c[22], c[23]))
    ensures ChiLane(c, 22) == Xor(c[22], AndNot(c[23], c[24]))
    ensures ChiLane(c, 23) == Xor(c[23], AndNot(c[24], c[20]))
    ensures ChiLane(c, 24) == Xor(c[24], AndNot(c[20], c[21]))
  {
    hide Xor, AndNot, ChiLane;
    ChiInRow(c, 4, 0);
    ChiInRow(c, 4, 1);
    ChiInRow(c, 4, 2);
    ChiInRow(c, 4, 3);
    ChiInRow(c, 4, 4);
  }

  function State0(): Lanes {
    State([0x0000000006636261, 0x0000000000000000, 0x0000000000000000, 0x0000000000000000, 0x0000000000000000],
          [0x0000000000000000, 0x0000000000000000, 0x0000000000000000, 0x0000000000000000, 0x0000000000000000],
          [0x0000000000000000, 0x0000000000000000, 0x0000000000000000, 0x0000000000000000, 0x0000000000000000],
          [0x0000000000000000, 0x8000000000000000, 0x0000000000000000, 0x0000000000000000, 0x0000000000000000],
          [0x0000000000000000, 0x0000000000000000, 0x0000000000000000, 0x0000000000000000, 0x0000000000000000])
  }

  function State1(): Lanes {
    State([0x0000040006636261, 0x3626100000000066, 0x00000731b1308000, 0x0000000006436260, 0x36261331b1308006],
          [0x0000000000000008, 0x6c4cfc6c4c2000c4, 0x1000000000000008, 0x6c4c3000000000cc, 0x1000cc6c4c200000],
          [0x000000000cc6c4c2, 0x0000000cc6c4c220, 0x0000000000000000, 0x0000000cca0606c2, 0x0000000000040020],
          [0x0066362f9d898400, 0x0000001000004000, 0x000000198d898400, 0x0066362610004000, 0x0000001000000000],
          [0x4362610000000006, 0x0000020000000000, 0x63626100198d8982, 0x2000020000000000, 0x00000000198d8984])
  }

  function State2(): Lanes {
    State([0xb6b325adc633eec4, 0xd33adc52cef7f93a, 0x5e528c35d5193b13, 0xc0dd85d31cd4a57a, 0xe999a2f43a2c2398],
          [0x28a443eb0f40bc8b, 0xc9bcc34e00041aae, 0x87909d2348a64377, 0x85b37bb2516f6e28, 0x553030f0b5716a5f],
          [0x57891ecfbac639be, 0x8f1bed8e9eb3b5fe, 0xf65d81303afc1db4, 0x07ee7f4d95690570, 0x0283444033b3c245],
          [0x20646b0f972e619a, 0x6402d9788f313bc7, 0x8e7cec66172e6017, 0x531e1ff2a32f401f, 0xdb1faf3a9bfc1cdb],
          [0xbc1fb24420d6aa27, 0xb228f4f473dc074f, 0x08b2babf4445dadf, 0x939cc5252aa816c8, 0x9622744f2c34e7ae])
  }

  function State3(): Lanes {
    State([0x10fb57a1c5470a5b, 0xad853c8f26f63ed9, 0x4031b99f75bea265, 0x6d2babeecd0c8c3d, 0xdb085530a540dffa],
          [0xf8e22dbc9c2a05fd, 0x28d4cb9bb90fdf96, 0x56cd5c1d2494a473, 0x82bc4dd88e1ab1e1, 0xc9e4f809ca4dba38],
          [0x08fbe8f9c346eec8, 0x5eec36d198428b00, 0xa1ee90df0282224b, 0x7e6f6415f34078f1, 0x0525d8a8145330ac],
          [0x731953959c2285d4, 0x53809b91ccce6eb3, 0x4a9e2dc31eee8629, 0x824418521b8d6533, 0xbf1c6b19f905c609],
          [0x9670693356e1c253, 0xeee524fb8f498522, 0x6ebf3510e32e7f35, 0xa7c94aba39779f8e, 0xbc3e6565fe186162])
  }

  function State4(): Lanes {
    State([0x5b60f45ed10e4bee, 0x2c37c8b29e8c4f73, 0x07e7b66e8ab73bd8, 0x8069ec499e32ef10, 0x1d55b3f8ee4800c6],
          [0xa0be5b06553c7093, 0xe6379f0883be6877, 0x8d03e311bba0dbaf, 0x4ff50c1fd02d5b1c, 0x48501d4592ca785d],
          [0x9c9b89225417518f, 0x4300c9197462e916, 0x034bd7a7f2002153, 0x7e3b424a68220a40, 0x9d22cb3de7e99ebf],
          [0xf8a1d37c27665fab, 0x7966c1c60bb8b2f4, 0x01163a41ac593154, 0xc1dd7ee8bd6b645f, 0xc41328d2f6f738f2],
          [0x11e1cabde4b6d635, 0x7594a4eb426e7684, 0x936073df2bec52b0, 0xb3685a7d459eded4, 0x703d7ad00f8a4de3])
  }

  function State5(): Lanes {
    State([0x3d9874c4121c4efd, 0xa8abb9600dc7f113, 0x919db1268052fa78, 0x5943bcdc8ea4c6cd, 0xa0aa7c92629c5a49],
          [0xa1f397dbbe7ca7f1, 0x4ba7ae83a129748e, 0xebaead43eaaffbf5, 0x036a1e09ad3e16a1, 0xf812d8a856de1a25],
          [0x2bd2db1e58703273, 0xbf05470bad761cb0, 0x31df49add63ef1e8, 0x08d1ec05dc92af10, 0xbc8a3eb0e29398b4],
          [0xa13bd794ce042838, 0x44017639e569b987, 0xc19018e36fbefbf0, 0xe6c544a7594eeb60, 0x3c1483d70eec80dd],
          [0x6524509dd4f96e0d, 0x43c6b84aac8ed56f, 0x652650c07c4160ac, 0xb8b4b7121ea7ca04, 0xaada3833497b50c1])
  }

  function State6(): Lanes {
    State([0xe4f9e90c96ef83d6, 0xa1c16a2978b5c198, 0x9101ab98506dbf78, 0x3212bf5e28992153, 0xbdd3dd730d13104f],
          [0xe02d4bf7c1709eb0, 0x3782fb47da817f71, 0x553618a2ceed8cef, 0x1e57d467bb5cd0ab, 0x393d4292223ea46a],
          [0x29527a7478a51310, 0xcc92e6b4504c90bb, 0x45b511ab630e6766, 0xd82089169c452597, 0x67975182b106013f],
          [0x333621f7ae0d71bf, 0x5c04e0f61928799d, 0x5ead449fa9cf3258, 0xfe548a17d34aa1e9, 0x79f25ce865b39fb0],
          [0xa02a0d568e154ca2, 0x230404e08f115eaa, 0x54be0e3fe7168203, 0x3f16e9c13b861d3f, 0xb354127461ee7a4f])
  }

  function State7(): Lanes {
    State([0x332e4e7b04174536, 0x8a54efcf3cd0e230, 0x392fe850500496df, 0x7b2b967ed1374e64, 0xd6a4d7b9a4e854d1],
          [0x42f06ed26c2b4c61, 0x137da54c085274f6, 0x5a76e9d953a208b8, 0xb8e65ab48e956a3d, 0x326982e889fdf9d0],
          [0x00e54448c070778d, 0xea2226451c84fc36, 0xb8f5cec1ee261d8b, 0xf005c1d4bbd1a835, 0x02c5509537320158],
          [0x30a2fcf60f0e1932, 0x781dc8f0551b4100, 0xbaacdce70f3220d4, 0x4a50c17a7525883f, 0x57aa39082facfd51],
          [0xf5a34ee8fcad19ff, 0x15833cbec19f5393, 0x0f972a82c8ee81a6, 0x27646ceaf1802870, 0x2ab4b2a19a60f052])
  }

  function State8(): Lanes {
    State([0x1413d15f9a58b82b, 0xc4fdd2a7921ec134, 0x2f9932dec0af2e9b, 0x0183b5d8d06a4dfc, 0x2f1855fa0811075f],
          [0x8c09d244d2002bbd, 0x7085cd5394c2c548, 0x465dc5e266c924bd, 0x0505e2a50d8ba041, 0x041b5370db785030],
          [0xc79032447b5eeab7, 0x64ac5b232326275f, 0x81dc34913cd17dd2, 0x23b46e2ce22fed65, 0xc65ca802a18d4b33],
          [0x19950427ec010ad2, 0xacf1e6de4cbd920b, 0x834dc60e53987504, 0x0239b928e379e876, 0xff3f05911c581b61],
          [0xb2984c710d48dd4e, 0xc9e17b1ab9fc8a06, 0x2d268a58270e50b0, 0xc611d13d3ecd18ad, 0xfb3e42619b14a0e0])
  }

  function State9(): Lanes {
    State([0x97c40511eec66961, 0xfcbf50a0cb385f14, 0xc536e9d1203c7946, 0x82dcc93e3d329f5d, 0xd07ee7f2535eac4e],
          [0x0553a5005155c78d, 0x137d4bddd484e0bb, 0x02e34cf13a69c89b, 0x1707fb920910c6da, 0x29f286e7c2e83101],
          [0x7dbb495224278671, 0x494fde06216fec9c, 0x19d79fe13f66346e, 0x0aa4cef9b5b10ff6, 0x5efdf054b2e0a030],
          [0x7a67f175393d6ff6, 0xa3e7a09bbeeae1b4, 0x30e7a8b08c9c8d72, 0xf6ef03ba5f16baee, 0x53dadd0cf3fb2d0d],
          [0xb72952711539ff4d, 0xd6cc65cf573e2cde, 0xf47377667f45aa7d, 0xaeaca577a4868c71, 0x8e44d21c1d42007c])
  }

  function State10(): Lanes {
    State([0x6066993fcc62e555, 0x515e54042c3b58f6, 0x3d5fd0284d6373c7, 0x09a75d5080c3704b, 0x169a824824ae9b4d],
          [0xa7c2e39ff2dc0749, 0x6c143cb71a388034, 0x14e612a815bddc4b, 0x619d1705d04f3591, 0x3d38a06f23aa3e1b],
          [0xc760a18907715cbd, 0xef7c6b624a11e207, 0x8a1dcb1beb0bda05, 0xe4133b763907eb44, 0x39e3816117c52969],
          [0x2a10ed0742d83857, 0xa5d8f40f4e3b8667, 0x507998dc2ac7897a, 0xa4e7d74dc96f37dd, 0xd00ff7744eea32ae],
          [0x663a5f5d00526861, 0x07fab1101b62c406, 0xc55149feb7be21d1, 0x1ab6966d085eff05, 0x1f4bb69d264f5401])
  }

  function State11(): Lanes {
    State([0xff7afe2da7b4ea9d, 0x194cf5de0eca6bc2, 0x236d72efcf74f5bb, 0x5d030147bfc59e9d, 0xd51a1ecda3916c79],
          [0xa7a243c5a0501620, 0x00b759bcd6b8adc4, 0xd24e58b3746a0994, 0xbf9ed285e583c904, 0x323335deaed95b7b],
          [0xc211dd8e9a0f3847, 0x889c084b3192def2, 0x6366ef478ab50049, 0x8b56811acb83d679, 0xc134aad0ae756cdc],
          [0x47d8fda13deae237, 0x53e3e955a6d8ea89, 0x2e599d33b68d4a8b, 0xb64a617c3b80e24e, 0x86b7319308c6333f],
          [0xf867fd704fe7f3db, 0xcd70932329033dce, 0x7279a089a74bc120, 0x160d47967301587b, 0x9925a441c5fa4750])
  }

  function State12(): Lanes {
    State([0xed9e52eed7893220, 0x434ceb91a4a4939e, 0x75c58ff8f741ea71, 0xa6e0bbfb5c617e7c, 0x4427b9cc5daec301],
          [0x67bb83626dc3cd9b, 0x903a914ea43b1400, 0x26698b9de3a74a84, 0xda28946acf148124, 0x15d2b6daee571f07],
          [0x538691c2cbecba3f, 0x6d1ba46a75eee717, 0x3214e9bcac7d62a3, 0xd704861c0c6e449f, 0xff66946d38333905],
          [0x012c57eea1229d18, 0x73ea6e7d5c06b7ba, 0x864dbcfabf17dae4, 0xd48430777b794856, 0xf6e95e8709c34cd0],
          [0xc59ed1156ef2d3ec, 0xd50032c357acef5b, 0xbd6e99b92a5bc6d4, 0x146590e63aabdf5f, 0xc33529da19f0391d])
  }

  function State13(): Lanes {
    State([0xc7de86b8324651d4, 0x3e3fc391785ff41a, 0x4b79fba74b8497f3, 0x1098bbbc44b50234, 0xc34a2ff40ce4c08e],
          [0x0047508d51a4dabe, 0x0ad4d74ad0b14bf3, 0xc045ef95151a91cb, 0x2000c37187b39d29, 0x24e6e6137f3251a5],
          [0x44fd6c16428e4940, 0x4cd48b411d8a22b8, 0x96289722c0ff0075, 0xf59ba8abe644bea2, 0xcd96a13cf6c92b42],
          [0x98f179c978e943f9, 0xb8e2c873df3eb568, 0x57d7efc0fd622434, 0x4de0206615016485, 0x847ae194b6363b20],
          [0x6ec68667ad0227a1, 0xbf211e42979d28bd, 0x2f0005df34884f5c, 0xd0bc0fa6dd7dbdee, 0xf580850a9b3dfb83])
  }

  function State14(): Lanes {
    State([0xcf64592128de0d95, 0x133caf54929c48f2, 0x6fa7694b486226ae, 0x3fc04c77e683de6a, 0x7c75458307ed417e],
          [0x803961a8dc8d28a5, 0xd3e7b0f83a056179, 0x022fee0188a3d35d, 0x791b094eb7f5b8b4, 0x36cee67123361696],
          [0x1f952a0441da9075, 0x41827d7ea99839c7, 0x3b811c0d564f9a7a, 0x839529b6019f0033, 0xa5d5aea9d98f027a],
          [0x4c57e3b5db8f98d2, 0x0b6a33ae4578b5f2, 0x5773db0a6d2891ed, 0x2cd76dedbb894c90, 0x7caaeb3426aabf05],
          [0xd1080b76de25594e, 0x4e4967997ac53e04, 0x7dcdb83997da80f9, 0x067ce669d8c33ff5, 0x0ba307ce10f15214])
  }

  function State15(): Lanes {
    State([0x5ea1d44a9aaa12ba, 0xbc819a399bede0af, 0xad4089848da43a6d, 0x41a9f842f56c15cb, 0x651e3af44a8ebad6],
          [0x21ce3f5e121b5b64, 0x59f509bee8d521eb, 0x7078bb76a5a4fe12, 0x668222f4411a84c0, 0x12fe8839f1002601],
          [0x4ffb0beef5088003, 0x078dbed45a18d98e, 0x1ff2f915433fda43, 0x2370e8d5eb4fbe08, 0x3c71155f58b37bea],
          [0xeae547ee2c05fb71, 0xbf9aed511a8dfa16, 0x87dd679140c011c5, 0x915cdb4b30e67ce1, 0x6a5034cc5c88a436],
          [0x7d60a40e873e3105, 0x551af9883ca7eb41, 0x3dbe94accffedcc1, 0xe72e48bb8cdb9cdb, 0x68dfa56d70fa15c7])
  }

  function State16(): Lanes {
    State([0x2561d669cbfd175f, 0x54c328db6f932645, 0xe25fe700735dc055, 0xf9845f6100bf7b79, 0x48b0ef2c936b5d14],
          [0xf8ff30f7babfca67, 0xf2ba793cf7d32f53, 0xe0b87689229e06cc, 0xab34df0da9df820b, 0xdb325dc864df8c75],
          [0x1486502d5ad90af5, 0x1e203cc9a1b66b61, 0x5507b00402134959, 0x0a93ea3a807c549a, 0x84957f47f2cee731],
          [0x9b1477858718f4a9, 0xb08fe9c600238724, 0x4a30560e61131d47, 0x0ebe0460231d9df3, 0x5f0c333e06d147f6],
          [0xd9c37cca4869d762, 0x946204dd2699418d, 0x59dbe098b5c1548b, 0x2d659f24432552fa, 0x2d622fadac0d3afd])
  }

  function State17(): Lanes {
    State([0xc17327d34ad21993, 0xc7699d1f878f7155, 0xf142a8f41294fc79, 0x337f6e79fbf20d7e, 0xed55533b08293003],
          [0xb90f1ba22157c623, 0xe97d16a0c9dac81c, 0x24a48baf5f284238, 0x866b54c6ff26fd58, 0xa46390116f9097ee],
          [0xae8736210bf8bf2a, 0x944cb7adc65cfc23, 0x14f24451171ad2f2, 0x638dc7a62825b283, 0xe7036551b213574e],
          [0x7a2cd79ae1275f0b, 0xa00f7e18d4de1a5a, 0xa21c008d24df9777, 0xa213b41e3f090096, 0xc0a395aa50436bd2],
          [0x6562a9c43fd47e42, 0x18daf77f3bbde0ed, 0x0fb4aea549ea967b, 0x6fe83e8a474bb63c, 0x467a1a6a31f066e7])
  }

  function State18(): Lanes {
    State([0xf484e486f0efcd77, 0x646f0ba91f0ca9a2, 0x9c3b0b00dcb1e7d0, 0x85ec75b2f0bfe6c6, 0xa0559d0ecb53d39c],
          [0xc9c6a1bf59609746, 0x380837e67668c63a, 0x1ce2a30289555025, 0x181ef73ef30b47ee, 0x376ffcd954feb887],
          [0x6bc1fce28cf757ca, 0x3274401585455684, 0xe6ba0e4a311cd2ac, 0xae00d8f1e05aafe8, 0xba611467b0b90a53],
          [0x594fae3bcb30de67, 0x158421d96fc5ce1d, 0x034514db4e9a9a12, 0xfd7d477060784f6f, 0x0fe2cc64db9dea30],
          [0xab428cb6730b4a26, 0xe4778b6f7bd0d407, 0xfe5073678da908cd, 0x46b8f68fe00b95d9, 0x64c54796a085e811])
  }

  function State19(): Lanes {
    State([0x9dfb96545c836829, 0x8b0d1e80f5f5d444, 0x3c683149a8fdb140, 0x491c7477d3761e4f, 0xa4ae36c561b0bb33],
          [0xaf73ecf12db6a5ac, 0x3b70de715b6b26d0, 0x5bcfd5c854cb9534, 0x16d151d4ee0ef32a, 0xde3bfc55261d9036],
          [0xec8f273df2f0b260, 0x1368f22f10bad3a0, 0x37790700417157fa, 0x4819698285bd87ce, 0x6fd7c53db90d0a7b],
          [0x01b2c0f0bb0b3681, 0xd2d232ab8fc3222a, 0xd822ae5f3383d600, 0x0a1bf0ee88fce464, 0x5d1815c0fb5bd8ea],
          [0x441d22a2b86f1b4a, 0x7507cea567652cb1, 0x81f6e13fa5e42e75, 0xad5b06f9fd1651d0, 0xc1508707a302eef0])
  }

  function State20(): Lanes {
    State([0xdd73c60ed316443c, 0x2f7c0e64f9859858, 0x6693488740c17d4c, 0xd60d41cc38d0009e, 0xf2a912fb65ed096d],
          [0x5b5b53069d0a7e34, 0x93b0e74e85d5b6c7, 0xf0209fafcd4cc60b, 0x6fa64bea6a946324, 0x38a74f786f62b63f],
          [0x6125f311be0d27c8, 0x198bfc540380890f, 0x6de4520db1e61fff, 0xd9915227348b89fa, 0x0138c22f4c431a5f],
          [0x252ee81a894a7fd2, 0xee9fb9c4fe0edf36, 0x34d69f09a64a627b, 0x9f39d5ac23c845ee, 0xa22655f0bb1f44d4],
          [0xa6587a6910080924, 0x40c3846182c45e6a, 0xa2381c408d15cfbc, 0xe8fd374b6a887d71, 0xfaee27b42651c3ac])
  }

  function State21(): Lanes {
    State([0xc8bf72508ea0b811, 0xeee0e7ca9efde4ae, 0xc1a5ea9620fd9737, 0x02aa3701017a8d21, 0x79213655a0980d57],
          [0x3acc5e90bcd498c9, 0x443ca4bbe8eaece1, 0x676a7a732fda49b6, 0xbddbcee2c9ea4760, 0x14fae801fa286bb9],
          [0x24e2bc25f05b622b, 0x3bb62e6270111a15, 0x25f143315403231d, 0x0f270b425219265d, 0x09cf34f999249217],
          [0x4cd4a06cf7ac081c, 0x6acd79b8f93a7584, 0x8cb319dae9892eba, 0x694b7d23f1a18a1e, 0xe6a3a47bfed84db0],
          [0x3590434017393347, 0x1032f84befc5d236, 0xb206f6610b9c18da, 0xf8b47b61cca9a9ad, 0xb72b43443f38de9b])
  }

  function State22(): Lanes {
    State([0x624cf262ad2714ce, 0x352b8a1fba3d9483, 0xd8492c0b8a38b01f, 0x67090f114df17b1b, 0x042e7e7e2a4139cb],
          [0xab607abd17c0c144, 0xf651399434622ba7, 0xb2ab4b969e6b7307, 0x5bf89756db14c43c, 0x97599b28aabae8d6],
          [0x6487d9f99feb3db6, 0x4b3fdf042c5886b3, 0x4f9750a4dbb1385e, 0x80b0031d2d394ff8, 0xd750d6fcfd039c9f],
          [0x2297f98f687802bd, 0xff53479507beac2b, 0xa595d4c70ba07338, 0x8c6fb3b8c20e133a, 0x2006037cadf1dcad],
          [0x3a9abb677dc02b7c, 0x8a3dbf30d4522021, 0xe910b499de03442a, 0x1e100dd4c56973c8, 0x97e2c9667c4ae11e])
  }

  function State23(): Lanes {
    State([0x4398e5f06685135d, 0xc5bf390099c90207, 0x6d4fef3618652a3d, 0xbed81aa723a14842, 0x26d4206724fa74a5],
          [0x106b6512cd67fff3, 0x8e00e58f8c0fa2a9, 0xe9986cb7c3786fef, 0x6e5cd302bb56a0f1, 0x210cffd6eadbfa35],
          [0xa600e6bd7e1194e6, 0xbf2576559c3bc025, 0xbcd3f5c75e0d0b56, 0x70d3f05f1fca68e1, 0xf329d9104030ec39],
          [0xc73c89517a3febc6, 0x850da5f46f4ab7d5, 0x1f1876803fffb4ab, 0x056c99ce5b77c3c1, 0xffd14303d7c7ba4e],
          [0x76429cd3318b0b76, 0x95da8d8fae5c3dbb, 0x490ba44850ef0a80, 0xd630da462678de6b, 0xb0444bcbc9d10553])
  }

  function State24(): Lanes {
    State([0xb225e24fa75d983a, 0xbd90d36b2d175c04, 0x5b529d3e6e085f85, 0x3215431145e2bf46, 0xf81092fb22f636d1],
          [0x2097c8aad6603e27, 0x31f2c561623fb1f7, 0x8fdf74f3f204df9c, 0x9f5e838db186c4ac, 0xa80a1c04bc11baa2],
          [0xbf130581a54ef742, 0x3092fccecda9f8bf, 0x1a8b8b2a4af00862, 0x60c4cc90d90ca705, 0x1f24793254851e4e],
          [0x631239dca84621ef, 0x4b3f7866395fe1bd, 0x30bef91bffc67d8a, 0xd272513dd6dd06c9, 0x25a3af600aecb585],
          [0x5fc53e5cb938bec8, 0x02fc22dcacbc3cc1, 0x668094928c4b6cc3, 0xd5c25129ae161a7d, 0xb5d89c9e96e91041])
  }

  function Mix0(): Row {
    [0x0000000000000001, 0x0000000006636261, 0x8000000000000000, 0x0000000000000000, 0x000000000cc6c4c2]
  }

  lemma Round0()
    ensures IsRound(State0(), Mix0(), 0, State1())
  {
    hide State;
  }

  function Mix1(): Row {
    [0x92f303acf1500ca6, 0xa5c09f7fdd4539b9, 0xc23ee625326eca5e, 0x3f2fd8b3ec069ece, 0xca22a275f21d6134]
  }

  lemma Round1()
    ensures IsRound(State1(), Mix1(), 1, State2())
  {
    hide State;
  }

  function Mix2(): Row {
    [0x7478b30c527ca533, 0x07462c3d2c1c1e7d, 0x47b368e80e065b09, 0x4f7fdc9de2643ef7, 0x29c9187ed9ced86d]
  }

  lemma Round2()
    ensures IsRound(State2(), Mix2(), 2, State3())
  {
    hide State;
  }

  function Mix3(): Row {
    [0xd95b86b3f43af1b9, 0x23ed735f0c391c6a, 0x0e33df386165feff, 0xbae59a5456ef394b, 0xbf62804f337df242]
  }

  lemma Round3()
    ensures IsRound(State3(), Mix3(), 3, State4())
  {
    hide State;
  }

  function Mix4(): Row {
    [0x77ecc09e231a87f0, 0xb9b6a9379ab0a6ec, 0x03d7f69d9d1603ed, 0xe3cba442808f84aa, 0xdf18f9fff923c21e]
  }

  lemma Round4()
    ensures IsRound(State4(), Mix4(), 4, State5())
  {
    hide State;
  }

  function Mix5(): Row {
    [0xc5611c5801b9e34e, 0xad1284dfb0954b39, 0x42dde45039bd49f5, 0x0aa25f368db07ab1, 0xebc4c374653a648c]
  }

  lemma Round5()
    ensures IsRound(State5(), Mix5(), 5, State6())
  {
    hide State;
  }

  function Mix6(): Row {
    [0x627ca76752f4422f, 0xa9b9244d698dfa3e, 0x4f9e903faad9d817, 0xd82ee9ce87bb4560, 0x481269a5f9080e6e]
  }

  lemma Round6()
    ensures IsRound(State6(), Mix6(), 6, State7())
  {
    hide State;
  }

  function Mix7(): Row {
    [0xa63dbf7cd6ef519c, 0x6914a4a50f573b2b, 0xa36cd9947d2e2025, 0x58ba25f6758b602b, 0x36890d70d708d00c]
  }

  lemma Round7()
    ensures IsRound(State7(), Mix7(), 7, State8())
  {
    hide State;
  }

  function Mix8(): Row {
    [0x82d75b5f54ded180, 0x786066fe0e0d0a3d, 0x73f07b9a144edb29, 0x94ce5d0a05701dfb, 0x0a14a35746e5ad78]
  }

  lemma Round8()
    ensures IsRound(State8(), Mix8(), 8, State9())
  {
    hide State;
  }

  function Mix9(): Row {
    [0xdda39e0e63e02cbd, 0x174f80681a65fd5e, 0x5ddeb51f23015f84, 0xef49d9b44d3482a0, 0x83f8ce17156210a2]
  }

  lemma Round9()
    ensures IsRound(State9(), Mix9(), 9, State10())
  {
    hide State;
  }

  function Mix10(): Row {
    [0x3d2d6f332af21bd8, 0x21f7d801261c54d3, 0x14e426c9783fb428, 0x8c871de7de650803, 0xaba4e2e55e31bb68]
  }

  lemma Round10()
    ensures IsRound(State10(), Mix10(), 10, State11())
  {
    hide State;
  }

  function Mix11(): Row {
    [0x2666a8afa276b0d7, 0xb9bd91f5af3c3a8d, 0x9cec363ad4b3b818, 0xbd7bd083fc6f28af, 0x8360b55d068991f9]
  }

  lemma Round11()
    ensures IsRound(State11(), Mix11(), 11, State12())
  {
    hide State;
  }

  function Mix12(): Row {
    [0xaa40e830664fe01e, 0xa8265781e5d9b7bc, 0xcedd9032c34961f4, 0x6c0410d71a24fffb, 0x510e8477a2253a2e]
  }

  lemma Round12()
    ensures IsRound(State12(), Mix12(), 12, State13())
  {
    hide State;
  }

  function Mix13(): Row {
    [0xa4389f12539a7bc2, 0xbed597935b917c38, 0xcf43b6e627baf12c, 0xd243718407a398b1, 0xb2f974bd0431b430]
  }

  lemma Round13()
    ensures IsRound(State13(), Mix13(), 13, State14())
  {
    hide State;
  }

  function Mix14(): Row {
    [0x10938c6bb6768ff6, 0x34f80aa668db89e3, 0x1bb1f8f359fab0ab, 0x4c783b37fa630f9a, 0x74ca139653e5fc3b]
  }

  lemma Round14()
    ensures IsRound(State14(), Mix14(), 14, State15())
  {
    hide State;
  }

  function Mix15(): Row {
    [0x59ec4527d15b45f6, 0x564372af1e81a5d9, 0xec2a7aadc90397ef, 0xea9554bd7a9f7ea0, 0x3c0ba7a64e00c86a]
  }

  lemma Round15()
    ensures IsRound(State15(), Mix15(), 15, State16())
  {
    hide State;
  }

  function Mix16(): Row {
    [0x5c10d15a913f02e6, 0x03d893cbeaef781e, 0x6b4562118d04611c, 0x8ef8357ad84e50ba, 0x6c678aeb80f18aec]
  }

  lemma Round16()
    ensures IsRound(State16(), Mix16(), 16, State17())
  {
    hide State;
  }

  function Mix17(): Row {
    [0x2df743517acc822c, 0x10cce64ad1a89aad, 0x34495a6fce0d57c3, 0x3d649a555fa09693, 0x88089f9029af77a8]
  }

  lemma Round17()
    ensures IsRound(State17(), Mix17(), 17, State18())
  {
    hide State;
  }

  function Mix18(): Row {
    [0x79bd539ba4642564, 0x926318bfd2d476b7, 0x8f8f01e83f0f8beb, 0x178f3d700fd33154, 0xc12add2f591ae703]
  }

  lemma Round18()
    ensures IsRound(State18(), Mix18(), 18, State19())
  {
    hide State;
  }

  function Mix19(): Row {
    [0x808b00ca0bfd483a, 0x89bde608d6e045d8, 0x65e9babdccdd9190, 0x1b1f963466d2a532, 0x87c5c5a3cc6d7b42]
  }

  lemma Round19()
    ensures IsRound(State19(), Mix19(), 19, State20())
  {
    hide State;
  }

  function Mix20(): Row {
    [0x85c8bc5eddb66fed, 0xbf09f8b2473b79c8, 0x24e65d175c058372, 0x4a44ddbda0304d94, 0xdf095232fd2904b3]
  }

  lemma Round20()
    ensures IsRound(State20(), Mix20(), 20, State21())
  {
    hide State;
  }

  function Mix21(): Row {
    [0xe2b7d45223870c03, 0xd4c30b1650d9ee51, 0xa8c605275ffa2ab6, 0xd6b3274bbdd90458, 0x7e031371e2f53cfe]
  }

  lemma Round21()
    ensures IsRound(State21(), Mix21(), 21, State22())
  {
    hide State;
  }

  function Mix22(): Row {
    [0x0994d1e44f941b0a, 0x6646bd0004375955, 0xa157de47089c95c7, 0x8e77a40642c72c37, 0x457202aaddd213d6]
  }

  lemma Round22()
    ensures IsRound(State22(), Mix22(), 22, State23())
  {
    hide State;
  }

  function Mix23(): Row {
    [0x73ff0b2b01d0087f, 0x98a23ac04a4679a6, 0x025b7644bc8ed115, 0x18dfb85dca0f4bc6, 0xfa119dc9c6bdac08]
  }

  lemma Round23()
    ensures IsRound(State23(), Mix23(), 23, State24())
  {
    hide State;
  }

  // ----- The digest -----

  lemma NextRound(s: Lanes, a: Lanes, d: Row, k: nat, b: Lanes)
    requires k < 24 && KeccakRounds(s, k) == a && IsRound(a, d, k, b)
    ensures KeccakRounds(s, k + 1) == b
  {
    RoundIs(a, d, k, b);
    hide KeccakRound, IsRound;
  }

  function Abc(): seq<bv8> {
    [0x61, 0x62, 0x63]
  }

  /** The message, its suffix and its padding: one block. */
  function AbcBlock(): (block: seq<bv8>)
    ensures |block| == 136
  {
    [0x61, 0x62, 0x63, 0x06] + Zeros(131) + [0x80]
  }

  lemma AbcPadded()
    ensures Padded(Abc(), 136) == AbcBlock()
  {
    assert Left(3, 136) == 3;
    assert Zeros(131) == Zeros(133 - 2);
    assert Padded(Abc(), 136) == [0x61, 0x62, 0x63] + ([0x06] + Zeros(131) + [0x80]);
  }

  function AbcLane(i: nat): bv64 {
    if i == 0 then 0x06636261 else if i == 16 then 0x8000000000000000 else 0
  }

  lemma LanesOfAbc(i: nat)
    requires i < 25
    ensures LaneOf((AbcBlock() + Zeros(64))[8 * i..8 * i + 8]) == AbcLane(i)
  {
    var bytes := (AbcBlock() + Zeros(64))[8 * i..8 * i + 8];
    var zero: bv8 := 0;
    if i == 0 {
      assert bytes == [0x61, 0x62, 0x63, 0x06, zero, zero, zero, zero];
    } else if i == 16 {
      assert bytes == [zero, zero, zero, zero, zero, zero, zero, 0x80];
    } else {
      assert bytes == [zero, zero, zero, zero, zero, zero, zero, zero];
    }
  }

  lemma FirstState()
    ensures XorBytes(ZeroState(), AbcBlock() + Zeros(64)) == State0()
  {
    hide LaneOf, AbcBlock, AbcLane;
    var a := XorBytes(ZeroState(), AbcBlock() + Zeros(64));
    forall i | 0 <= i < 25
      ensures a[i] == AbcLane(i)
    {
      LanesOfAbc(i);
      FromZero(AbcLane(i));
    }
    LanesOfState0();
  }

  lemma FromZero(v: bv64)
    ensures Xor(0, v) == v
  {
  }

  lemma LanesOfState0()
    ensures forall i :: 0 <= i < 25 ==> State0()[i] == AbcLane(i)
  {
  }

  lemma {:induction false} StateBytesBegin(a: Lanes, n: nat, m: nat)
    requires n <= m <= 25
    ensures StateBytes(a, m)[..8 * n] == StateBytes(a, n)
    decreases m
  {
    hide LaneBytes;
    if n < m {
      StateBytesBegin(a, n, m - 1);
      assert StateBytes(a, m)[..8 * n] == StateBytes(a, m - 1)[..8 * n];
    }
  }

  lemma DigestLane0()
    ensures LaneBytes(0xb225e24fa75d983a) == [0x3a, 0x98, 0x5d, 0xa7, 0x4f, 0xe2, 0x25, 0xb2]
  {
  }

  lemma DigestLane1()
    ensures LaneBytes(0xbd90d36b2d175c04) == [0x04, 0x5c, 0x17, 0x2d, 0x6b, 0xd3, 0x90, 0xbd]
  {
  }

  lemma DigestLane2()
    ensures LaneBytes(0x5b529d3e6e085f85) == [0x85, 0x5f, 0x08, 0x6e, 0x3e, 0x9d, 0x52, 0x5b]
  {
  }

  lemma DigestLane3()
    ensures LaneBytes(0x3215431145e2bf46) == [0x46, 0xbf, 0xe2, 0x45, 0x11, 0x43, 0x15, 0x32]
  {
  }

  /** The published digest. */
  function AbcDigest(): seq<bv8> {
    [0x3a, 0x98, 0x5d, 0xa7, 0x4f, 0xe2, 0x25, 0xb2] +
    [0x04, 0x5c, 0x17, 0x2d, 0x6b, 0xd3, 0x90, 0xbd] +
    [0x85, 0x5f, 0x08, 0x6e, 0x3e, 0x9d, 0x52, 0x5b] +
    [0x46, 0xbf, 0xe2, 0x45, 0x11, 0x43, 0x15, 0x32]
  }

  lemma DigestBytes(a: Lanes)
    requires a == State24()
    ensures StateBytes(a, 4) == AbcDigest()
  {
    hide LaneBytes;
    DigestLane0();
    DigestLane1();
    DigestLane2();
    DigestLane3();
    assert StateBytes(a, 1) == LaneBytes(a[0]);
    assert StateBytes(a, 2) == LaneBytes(a[0]) + LaneBytes(a[1]);
    assert StateBytes(a, 3) == LaneBytes(a[0]) + LaneBytes(a[1]) + LaneBytes(a[2]);
    assert StateBytes(a, 4) == LaneBytes(a[0]) + LaneBytes(a[1]) + LaneBytes(a[2]) + LaneBytes(a[3]);
  }

  lemma OneBlock(block: seq<bv8>)
    requires |block| == 136
    ensures Whole(block, 136) && AbsorbAll(Keccak, ZeroState(), block, 136) == AbsorbBlock(Keccak, ZeroState(), block)
  {
    assert block[136..] == [] && block[..136] == block;
    hide AbsorbBlock, Keccak;
  }

  lemma NoRounds(a: Lanes)
    ensures KeccakRounds(a, 0) == a
  {
  }

  /** The standard's digest of the message "abc" at 256 bits. */
  lemma AbcVector()
    ensures Digest(Abc(), 256) == AbcDigest()
  {
    hide KeccakRounds, XorBytes, StateBytes, AbcBlock, AbcDigest, Abc, Padded, IsRound;
    hide State0, State1, State2, State3, State4, State5, State6, State7, State8, State9, State10, State11,
         State12, State13, State14, State15, State16, State17, State18, State19, State20, State21, State22, State23,
         State24, Mix0, Mix1, Mix2, Mix3, Mix4, Mix5, Mix6, Mix7, Mix8, Mix9, Mix10,
         Mix11, Mix12, Mix13, Mix14, Mix15, Mix16, Mix17, Mix18, Mix19, Mix20, Mix21, Mix22,
         Mix23;
    AbcPadded();
    OneBlock(AbcBlock());
    FirstState();
    NoRounds(State0());
    Round0();
    NextRound(State0(), State0(), Mix0(), 0, State1());
    Round1();
    NextRound(State0(), State1(), Mix1(), 1, State2());
    Round2();
    NextRound(State0(), State2(), Mix2(), 2, State3());
    Round3();
    NextRound(State0(), State3(), Mix3(), 3, State4());
    Round4();
    NextRound(State0(), State4(), Mix4(), 4, State5());
    Round5();
    NextRound(State0(), State5(), Mix5(), 5, State6());
    Round6();
    NextRound(State0(), State6(), Mix6(), 6, State7());
    Round7();
    NextRound(State0(), State7(), Mix7(), 7, State8());
    Round8();
    NextRound(State0(), State8(), Mix8(), 8, State9());
    Round9();
    NextRound(State0(), State9(), Mix9(), 9, State10());
    Round10();
    NextRound(State0(), State10(), Mix10(), 10, State11());
    Round11();
    NextRound(State0(), State11(), Mix11(), 11, State12());
    Round12();
    NextRound(State0(), State12(), Mix12(), 12, State13());
    Round13();
    NextRound(State0(), State13(), Mix13(), 13, State14());
    Round14();
    NextRound(State0(), State14(), Mix14(), 14, State15());
    Round15();
    NextRound(State0(), State15(), Mix15(), 15, State16());
    Round16();
    NextRound(State0(), State16(), Mix16(), 16, State17());
    Round17();
    NextRound(State0(), State17(), Mix17(), 17, State18());
    Round18();
    NextRound(State0(), State18(), Mix18(), 18, State19());
    Round19();
    NextRound(State0(), State19(), Mix19(), 19, State20());
    Round20();
    NextRound(State0(), State20(), Mix20(), 20, State21());
    Round21();
    NextRound(State0(), State21(), Mix21(), 21, State22());
    Round22();
    NextRound(State0(), State22(), Mix22(), 22, State23());
    Round23();
    NextRound(State0(), State23(), Mix23(), 23, State24());
    StateBytesBegin(State24(), 4, 17);
    DigestBytes(State24());
  }

}
