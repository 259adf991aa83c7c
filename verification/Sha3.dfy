/** SHA-3: the step mappings of sections 3.2.1 to 3.2.5 of FIPS 202 and the sponge
    of section 6.1, against the in-place permutation and the streaming hasher. */
module Sha3 {
  import opened ByteStrings

  /** The 25 lanes of a state; lane (x, y) stands at x + 5y. */
  type Lanes = s: seq<bv64> | |s| == 25 witness seq(25, _ => 0)

  function Xor(a: bv64, b: bv64): bv64 {
    a ^ b
  }

  function AndNot(a: bv64, b: bv64): bv64 {
    !a & b
  }

  /** Turning a lane one place left. */
  function Turned(v: bv64): bv64 {
    v.RotateLeft(1)
  }

  /** Turning a lane `n` places left, one place at a time. */
  function Rot(v: bv64, n: nat): bv64
    requires n < 64
  {
    if n == 0 then v else Turned(Rot(v, n - 1))
  }

  // ----- Section 3.2.1: theta -----

  function Parity(a: Lanes, x: nat): bv64
    requires x < 5
  {
    Xor(Xor(Xor(Xor(a[x], a[x + 5]), a[x + 10]), a[x + 15]), a[x + 20])
  }

  function Mixed(a: Lanes, x: nat): bv64
    requires x < 5
  {
    Xor(Parity(a, (x + 4) % 5), Rot(Parity(a, (x + 1) % 5), 1))
  }

  function Theta(a: Lanes): Lanes
  {
    seq(25, i requires 0 <= i < 25 => Xor(a[i], Mixed(a, i % 5)))
  }

  // ----- Sections 3.2.2 and 3.2.3: rho and pi -----

  /** The walk of rho: from (1, 0), each step to (y, 2x + 3y). */
  function Walk(t: nat): (lane: nat)
    ensures lane < 25
  {
    if t == 0 then 1
    else
      var x, y := Walk(t - 1) % 5, Walk(t - 1) / 5;
      y + 5 * ((2 * x + 3 * y) % 5)
  }

  function Doubled(t: nat): nat {
    (t + 1) * (t + 2)
  }

  /** The offset rho gives the lane reached at step `t`. */
  function OffsetAt(t: nat): (n: nat)
    ensures n < 64
  {
    Doubled(t) / 2 % 64
  }

  /** The step at which the walk reaches a lane, or 24 if it does not. */
  function StepOf(lane: nat, t: nat): (r: nat)
    requires t <= 24
    ensures t <= r <= 24
    ensures r < 24 ==> Walk(r) == lane
    decreases 24 - t
  {
    if t == 24 || Walk(t) == lane then t else StepOf(lane, t + 1)
  }

  /** Rho: lane (0, 0) stays, the others turn by their offsets. */
  function Rho(a: Lanes): Lanes
  {
    seq(25, i requires 0 <= i < 25 => if StepOf(i, 0) == 24 then a[i] else Rot(a[i], OffsetAt(StepOf(i, 0))))
  }

  /** Where pi takes lane (x, y) from: (x + 3y, x). */
  function PiSource(lane: nat): (r: nat)
    requires lane < 25
    ensures r < 25
  {
    var x, y := lane % 5, lane / 5;
    (x + 3 * y) % 5 + 5 * x
  }

  function Pi(a: Lanes): Lanes
  {
    seq(25, i requires 0 <= i < 25 => a[PiSource(i)])
  }

  // ----- Section 3.2.4: chi -----

  function Right(i: nat, n: nat): (r: nat)
    requires i < 25
    ensures r < 25
  {
    i / 5 * 5 + (i % 5 + n) % 5
  }

  function ChiLane(a: Lanes, i: nat): bv64
    requires i < 25
  {
    Xor(a[i], AndNot(a[Right(i, 1)], a[Right(i, 2)]))
  }

  function Chi(a: Lanes): Lanes
  {
    seq(25, i requires 0 <= i < 25 => ChiLane(a, i))
  }

  // ----- The permutation -----

  const ROUNDS: seq<bv64> := [
    0x0000000000000001, 0x0000000000008082, 0x800000000000808a, 0x8000000080008000,
    0x000000000000808b, 0x0000000080000001, 0x8000000080008081, 0x8000000000008009,
    0x000000000000008a, 0x0000000000000088, 0x0000000080008009, 0x000000008000000a,
    0x000000008000808b, 0x800000000000008b, 0x8000000000008089, 0x8000000000008003,
    0x8000000000008002, 0x8000000000000080, 0x000000000000800a, 0x800000008000000a,
    0x8000000080008081, 0x8000000000008080, 0x0000000080000001, 0x8000000080008008
  ]

  function RoundConstant(round: nat): bv64
    requires round < 24
  {
    ROUNDS[round]
  }

  /** Section 3.2.5: iota. */
  function Iota(a: Lanes, round: nat): Lanes
    requires round < 24
  {
    a[0 := Xor(a[0], RoundConstant(round))]
  }

  function KeccakRound(a: Lanes, round: nat): Lanes
    requires round < 24
  {
    Iota(Chi(Pi(Rho(Theta(a)))), round)
  }

  function KeccakRounds(a: Lanes, n: nat): Lanes
    requires n <= 24
  {
    if n == 0 then a else KeccakRound(KeccakRounds(a, n - 1), n - 1)
  }

  function Keccak(a: Lanes): Lanes {
    KeccakRounds(a, 24)
  }

  // ----- The permutation in place -----

  /** The theta step: mixes each column's parity into its neighbours. */
  method ThetaInPlace(state: array<bv64>)
    requires state.Length == 25
    modifies state
    ensures state[..] == Theta(old(state[..]))
  {
    hide Xor, Rot, Mixed, Parity;
    ghost var a: Lanes := state[..];
    var parity := new bv64[5](_ => 0);
    for column := 0 to 5
      invariant state[..] == a
      invariant forall k :: 0 <= k < column ==> parity[k] == Parity(a, k)
    {
      ParityIs(a, column);
      parity[column] := Xor(Xor(Xor(Xor(state[column], state[column + 5]), state[column + 10]), state[column + 15]), state[column + 20]);
    }
    for column := 0 to 5
      invariant state.Length == 25 && parity.Length == 5
      invariant forall k :: 0 <= k < 5 ==> parity[k] == Parity(a, k)
      invariant forall i :: 0 <= i < 25 ==> state[i] == if i % 5 < column then Xor(a[i], Mixed(a, i % 5)) else a[i]
    {
      var mixed := Xor(parity[(column + 4) % 5], Rot(parity[(column + 1) % 5], 1));
      MixedIs(a, column);
      MixColumn(state, column, mixed);
    }
  }

  /** Mixes one value into the five lanes of a column. */
  method MixColumn(state: array<bv64>, column: nat, mixed: bv64)
    requires state.Length == 25 && column < 5
    modifies state
    ensures forall i :: 0 <= i < 25 ==> state[i] == if i % 5 == column then Xor(old(state[i]), mixed) else old(state[i])
  {
    hide Xor;
    for row := 0 to 5
      invariant forall i :: 0 <= i < 25 ==>
                  state[i] == if i % 5 == column && i / 5 < row then Xor(old(state[i]), mixed) else old(state[i])
    {
      state[row * 5 + column] := Xor(state[row * 5 + column], mixed);
    }
  }

  lemma ParityIs(a: Lanes, x: nat)
    requires x < 5
    ensures Parity(a, x) == Xor(Xor(Xor(Xor(a[x], a[x + 5]), a[x + 10]), a[x + 15]), a[x + 20])
  {
  }

  lemma MixedIs(a: Lanes, x: nat)
    requires x < 5
    ensures Mixed(a, x) == Xor(Parity(a, (x + 4) % 5), Rot(Parity(a, (x + 1) % 5), 1))
  {
  }

  const ROTATIONS: seq<nat> := [
    1, 3, 6, 10, 15, 21, 28, 36, 45, 55, 2, 14, 27, 41, 56, 8, 25, 43, 62, 18, 39, 61, 20, 44
  ]

  const PI_LANES: seq<nat> := [
    10, 7, 11, 17, 18, 3, 5, 16, 8, 21, 24, 4, 15, 23, 19, 13, 12, 2, 20, 14, 22, 9, 6, 1
  ]

  function Rotation(step: nat): nat
    requires step < 24
  {
    ROTATIONS[step]
  }

  function PiLane(step: nat): nat
    requires step < 24
  {
    PI_LANES[step]
  }

  lemma RotationSteps(step: nat)
    requires 1 <= step < 24
    ensures Rotation(step) == (Rotation(step - 1) + step + 1) % 64
  {
  }

  lemma FirstRotation()
    ensures Rotation(0) == 1
  {
  }

  lemma HalfStep(before: nat, after: nat, n: nat)
    requires after == before + 2 * n
    ensures after / 2 % 64 == (before / 2 % 64 + n) % 64
  {
    assert after / 2 == before / 2 + n;
  }

  lemma DoubledSteps(step: nat)
    requires 1 <= step
    ensures Doubled(step) == Doubled(step - 1) + 2 * (step + 1)
  {
  }

  lemma OffsetSteps(step: nat)
    requires 1 <= step
    ensures OffsetAt(step) == (OffsetAt(step - 1) + step + 1) % 64
  {
    DoubledSteps(step);
    hide Doubled;
    HalfStep(Doubled(step - 1), Doubled(step), step + 1);
  }

  /** The table of rotations is the offsets of rho in the order of its walk. */
  lemma {:induction false} RotationsAreOffsets(step: nat)
    requires step < 24
    ensures Rotation(step) == OffsetAt(step)
  {
    hide Rotation;
    if step == 0 {
      FirstRotation();
    } else {
      RotationsAreOffsets(step - 1);
      RotationSteps(step);
      OffsetSteps(step);
    }
  }

  /** One step of pi's table is one step of the walk. */
  lemma PiLaneSteps(step: nat)
    requires 1 <= step < 24
    ensures PiLane(step - 1) < 25
    ensures var x, y := PiLane(step - 1) % 5, PiLane(step - 1) / 5;
            PiLane(step) == y + 5 * ((2 * x + 3 * y) % 5)
  {
  }

  /** The table of lanes is the walk of rho, shifted by one step. */
  lemma {:induction false} PiLanesAreTheWalk(step: nat)
    requires step < 24
    ensures PiLane(step) == Walk(step + 1)
  {
    hide PiLane;
    if step == 0 {
      FirstLane();
    } else {
      PiLanesAreTheWalk(step - 1);
      PiLaneSteps(step);
    }
  }

  lemma FirstLane()
    ensures PiLane(0) == 10
  {
  }

  /** Pi goes back along the walk. */
  lemma PiGoesBack(t: nat)
    ensures PiSource(Walk(t + 1)) == Walk(t)
  {
    var x, y := Walk(t) % 5, Walk(t) / 5;
    BackAgain(x, y);
    assert Walk(t + 1) == y + 5 * ((2 * x + 3 * y) % 5);
  }

  lemma BackAgain(x: nat, y: nat)
    requires x < 5 && y < 5
    ensures PiSource(y + 5 * ((2 * x + 3 * y) % 5)) == x + 5 * y
  {
    var z: nat := (2 * x + 3 * y) % 5;
    var q: nat := (2 * x + 3 * y) / 5;
    var lane: nat := y + 5 * z;
    assert lane % 5 == y && lane / 5 == z;
    assert y + 3 * z == x + 5 * (x + 2 * y - 3 * q);
    assert (y + 3 * z) % 5 == x;
  }

  /** The walk is one cycle of 24 lanes: no lane comes twice in 24 steps. */
  lemma {:induction false} WalkNeverRepeats(s: nat, t: nat)
    requires s < t < 24
    ensures Walk(s) != Walk(t)
  {
    hide Walk;
    if Walk(s) == Walk(t) {
      WalkBackToStart(s, t);
      WalkStartsOnce(t - s);
    }
  }

  lemma {:induction false} WalkBackToStart(s: nat, t: nat)
    requires s <= t && Walk(s) == Walk(t)
    ensures Walk(0) == Walk(t - s)
    decreases s
  {
    hide Walk;
    if s > 0 {
      PiGoesBack(s - 1);
      PiGoesBack(t - 1);
      WalkBackToStart(s - 1, t - 1);
    }
  }

  lemma WalkStartsOnce(t: nat)
    requires 1 <= t < 24
    ensures Walk(t) != Walk(0)
  {
    PiLanesAreTheWalk(t - 1);
    LaneOneIsLast(t - 1);
    assert Walk(0) == 1;
    hide Walk;
  }

  lemma LaneOneIsLast(step: nat)
    requires step < 23
    ensures PiLane(step) != 1
  {
  }

  /** It visits every lane but the first. */
  lemma WalkReaches(lane: nat)
    requires 1 <= lane < 25
    ensures StepOf(lane, 0) < 24
  {
    hide StepInTable, PiLane, StepOf;
    EveryLaneIsThere(lane);
    var t := StepInTable(lane);
    if t == 0 {
      assert Walk(0) == 1;
    } else {
      PiLanesAreTheWalk(t - 1);
    }
    hide Walk;
    StepOfFinds(lane, 0, t);
  }

  /** Where each lane stands in the order of the walk. */
  const WALK_STEPS: seq<nat> := [
    0, 0, 18, 6, 12, 7, 23, 2, 9, 22, 1, 3, 17, 16, 20, 13, 8, 4, 5, 15, 19, 10, 21, 14, 11
  ]

  function StepInTable(lane: nat): nat
    requires lane < 25
  {
    WALK_STEPS[lane]
  }

  lemma EveryLaneIsThere(lane: nat)
    requires 1 <= lane < 25
    ensures StepInTable(lane) < 24
    ensures if StepInTable(lane) == 0 then lane == 1 else PiLane(StepInTable(lane) - 1) == lane
  {
  }

  lemma {:induction false} StepOfFinds(lane: nat, t: nat, found: nat)
    requires t <= found < 24 && Walk(found) == lane
    ensures StepOf(lane, t) < 24
    decreases found - t
  {
    hide Walk;
    if t < found {
      StepOfFinds(lane, t + 1, found);
    }
  }

  // ----- The cycle walk in place -----

  /** The step that fills a lane: the one that leaves the lane pi takes it from. */
  function FilledAt(lane: nat): (t: nat)
    requires lane < 25
    ensures t <= 24
  {
    StepOf(PiSource(lane), 0)
  }

  lemma {:induction false} StepOfIsFirst(t: nat, from: nat)
    requires from <= t < 24
    ensures StepOf(Walk(t), from) == t
    decreases t - from
  {
    hide Walk;
    if from < t {
      WalkNeverRepeats(from, t);
      StepOfIsFirst(t, from + 1);
    }
  }

  /** Each step fills the lane the walk goes to next, and no step fills it again. */
  lemma FilledOnce(step: nat, lane: nat)
    requires step < 24 && lane < 25
    ensures FilledAt(lane) == step <==> lane == Walk(step + 1)
    ensures FilledAt(lane) == step ==> PiSource(lane) == Walk(step)
  {
    hide Walk, PiSource;
    PiGoesBack(step);
    StepOfIsFirst(step, 0);
    if FilledAt(lane) == step {
      PiKeepsApart(lane, Walk(step + 1));
    }
  }

  lemma PiKeepsApart(i: nat, j: nat)
    requires i < 25 && j < 25 && PiSource(i) == PiSource(j)
    ensures i == j
  {
    assert i % 5 == j % 5;
    Thirds(i % 5, i / 5, j / 5);
  }

  lemma Thirds(x: nat, y: nat, z: nat)
    requires x < 5 && y < 5 && z < 5 && (x + 3 * y) % 5 == (x + 3 * z) % 5
    ensures y == z
  {
    assert (x + 3 * y) - (x + 3 * z) == 3 * (y - z);
  }

  lemma PiHoldsZero(lane: nat)
    requires lane < 25
    ensures PiSource(lane) == 0 <==> lane == 0
  {
  }

  /** The one lane no step fills is the one both mappings leave alone. */
  lemma UnfilledStays(lane: nat)
    requires lane < 25 && FilledAt(lane) == 24
    ensures PiSource(lane) == lane
  {
    hide PiSource, StepOf, Walk;
    PiHoldsZero(lane);
    if lane != 0 {
      WalkReaches(PiSource(lane));
    }
  }

  function Filled(a: Lanes, lane: nat): bv64
    requires lane < 25
  {
    if FilledAt(lane) == 24 then a[lane] else Rot(a[PiSource(lane)], OffsetAt(FilledAt(lane)))
  }

  lemma FilledIsRhoThenPi(a: Lanes, lane: nat)
    requires lane < 25
    ensures Filled(a, lane) == Pi(Rho(a))[lane]
  {
    hide Rot, OffsetAt, PiSource, StepOf;
    if FilledAt(lane) == 24 {
      UnfilledStays(lane);
    }
  }

  /** The rho and pi steps: rotate each lane and move it to its new position. */
  method RhoAndPiInPlace(state: array<bv64>)
    requires state.Length == 25
    modifies state
    ensures state[..] == Pi(Rho(old(state[..])))
  {
    hide Rho, Pi, Rot, OffsetAt, FilledAt, PiSource, PiLane, Rotation, Walk;
    ghost var a: Lanes := state[..];
    FirstOfTheWalk();
    var carried := state[1];
    for step := 0 to 24
      invariant carried == a[Walk(step)]
      invariant forall i :: 0 <= i < 25 ==> state[i] == if FilledAt(i) < step then Filled(a, i) else a[i]
    {
      PiLanesAreTheWalk(step);
      RotationsAreOffsets(step);
      forall i | 0 <= i < 25 {
        FilledOnce(step, i);
      }
      var target := PiLane(step);
      var displaced := state[target];
      state[target] := Rot(carried, Rotation(step));
      carried := displaced;
    }
    forall i | 0 <= i < 25 ensures state[i] == Pi(Rho(a))[i] {
      FilledIsRhoThenPi(a, i);
    }
  }

  lemma FirstOfTheWalk()
    ensures Walk(0) == 1
  {
  }

  // ----- Chi in place -----

  /** The chi step: a non-linear mix along each row. */
  method ChiInPlace(state: array<bv64>)
    requires state.Length == 25
    modifies state
    ensures state[..] == Chi(old(state[..]))
  {
    hide ChiLane;
    ghost var a: Lanes := state[..];
    for row := 0 to 5
      invariant forall i :: 0 <= i < 25 ==>
                  state[i] == if i < row * 5 then ChiLane(a, i) else a[i]
    {
      MixRow(state, row, a);
    }
  }

  lemma ChiInRow(a: Lanes, row: nat, column: nat)
    requires row < 5 && column < 5
    ensures ChiLane(a, row * 5 + column) ==
            Xor(a[row * 5 + column], AndNot(a[row * 5 + (column + 1) % 5], a[row * 5 + (column + 2) % 5]))
  {
    hide Xor, AndNot, Right;
    RightInRow(row, column);
  }

  lemma RightInRow(row: nat, column: nat)
    requires row < 5 && column < 5
    ensures Right(row * 5 + column, 1) == row * 5 + (column + 1) % 5
    ensures Right(row * 5 + column, 2) == row * 5 + (column + 2) % 5
  {
    var i: nat := row * 5 + column;
    assert i / 5 == row && i % 5 == column;
  }

  method MixRow(state: array<bv64>, row: nat, ghost a: Lanes)
    requires state.Length == 25 && row < 5
    requires forall i :: row * 5 <= i < row * 5 + 5 ==> state[i] == a[i]
    modifies state
    ensures forall i :: 0 <= i < 25 ==>
              state[i] == if row * 5 <= i < row * 5 + 5 then ChiLane(a, i) else old(state[i])
  {
    hide Xor, AndNot, ChiLane;
    var base := row * 5;
    var lanes := new bv64[5](_ => 0);
    for column := 0 to 5
      invariant state[..] == old(state[..])
      invariant forall k :: 0 <= k < column ==> lanes[k] == a[base + k]
    {
      lanes[column] := state[base + column];
    }
    for column := 0 to 5
      invariant lanes.Length == 5 && forall k :: 0 <= k < 5 ==> lanes[k] == a[base + k]
      invariant forall i :: 0 <= i < 25 ==>
                  state[i] == if base <= i < base + column then ChiLane(a, i) else old(state[i])
    {
      ChiInRow(a, row, column);
      var next := lanes[(column + 1) % 5];
      var after := lanes[(column + 2) % 5];
      state[base + column] := Xor(state[base + column], AndNot(next, after));
    }
  }

  method RoundInPlace(state: array<bv64>, round: nat)
    requires state.Length == 25 && round < 24
    modifies state
    ensures state[..] == KeccakRound(old(state[..]), round)
  {
    hide Theta, Rho, Pi, Chi, RoundConstant, Xor;
    ThetaInPlace(state);
    RhoAndPiInPlace(state);
    ChiInPlace(state);
    state[0] := Xor(state[0], RoundConstant(round));
  }

  /** Runs the 24 rounds of the Keccak-f[1600] permutation. */
  method KeccakF(state: array<bv64>)
    requires state.Length == 25
    modifies state
    ensures state[..] == Keccak(old(state[..]))
  {
    hide KeccakRound;
    ghost var a: Lanes := state[..];
    for round := 0 to 24
      invariant state[..] == KeccakRounds(a, round)
    {
      RoundInPlace(state, round);
    }
  }

  // ----- Section 3.2.5: where the round constants come from -----

  /** Algorithm 5's shift register, its first bit lowest. */
  function Register(t: nat): bv8 {
    if t == 0 then 1 else Shifted(Register(t - 1))
  }

  function Shifted(r: bv8): bv8 {
    (r << 1) ^ (if r & 0x80 == 0 then 0 else 0x71)
  }

  function SevenShifts(r: bv8): bv8 {
    Shifted(Shifted(Shifted(Shifted(Shifted(Shifted(Shifted(r)))))))
  }

  function FirstBit(r: bv8): bv64 {
    (r & 1) as bv64
  }

  /** Bit 2^j - 1 of a round's constant is rc(j + 7 * round). */
  function ConstantFrom(r: bv8): bv64 {
    var r1 := Shifted(r);
    var r2 := Shifted(r1);
    var r3 := Shifted(r2);
    var r4 := Shifted(r3);
    var r5 := Shifted(r4);
    var r6 := Shifted(r5);
    FirstBit(r) | (FirstBit(r1) << 1) | (FirstBit(r2) << 3) | (FirstBit(r3) << 7)
    | (FirstBit(r4) << 15) | (FirstBit(r5) << 31) | (FirstBit(r6) << 63)
  }

  const REGISTERS: seq<bv8> := [
    0x1, 0x80, 0xd8, 0x1a, 0xdf, 0x9, 0x35, 0x4f, 0xca, 0x70, 0x41, 0xec, 0xd5, 0xcd, 0x63, 0xab, 0xaa, 0x2a, 0xf2, 0xe8, 0x37, 0x3e, 0xb, 0x44
  ]

  function RegisterOf(round: nat): bv8
    requires round < 24
  {
    REGISTERS[round]
  }

  lemma RegisterStepsFrom1(round: nat)
    requires 1 <= round < 12
    ensures RegisterOf(round) == SevenShifts(RegisterOf(round - 1))
  {
  }

  lemma RegisterStepsFrom12(round: nat)
    requires 12 <= round < 24
    ensures RegisterOf(round) == SevenShifts(RegisterOf(round - 1))
  {
  }

  lemma RegisterSteps(round: nat)
    requires 1 <= round < 24
    ensures RegisterOf(round) == SevenShifts(RegisterOf(round - 1))
  {
    hide RegisterOf, SevenShifts;
    if round < 12 {
      RegisterStepsFrom1(round);
    } else {
      RegisterStepsFrom12(round);
    }
  }

  lemma ConstantsFrom0(round: nat)
    requires 0 <= round < 6
    ensures RoundConstant(round) == ConstantFrom(RegisterOf(round))
  {
  }

  lemma ConstantsFrom6(round: nat)
    requires 6 <= round < 12
    ensures RoundConstant(round) == ConstantFrom(RegisterOf(round))
  {
  }

  lemma ConstantsFrom12(round: nat)
    requires 12 <= round < 18
    ensures RoundConstant(round) == ConstantFrom(RegisterOf(round))
  {
  }

  lemma ConstantsFrom18(round: nat)
    requires 18 <= round < 24
    ensures RoundConstant(round) == ConstantFrom(RegisterOf(round))
  {
  }

  lemma ConstantOfRegister(round: nat)
    requires round < 24
    ensures RoundConstant(round) == ConstantFrom(RegisterOf(round))
  {
    hide RoundConstant, ConstantFrom, RegisterOf;
    if round < 6 {
      ConstantsFrom0(round);
    } else if round < 12 {
      ConstantsFrom6(round);
    } else if round < 18 {
      ConstantsFrom12(round);
    } else {
      ConstantsFrom18(round);
    }
  }

  lemma SevenMore(t: nat)
    ensures Register(t + 7) == SevenShifts(Register(t))
  {
    hide Shifted;
    assert Register(t + 1) == Shifted(Register(t));
    assert Register(t + 2) == Shifted(Register(t + 1));
    assert Register(t + 3) == Shifted(Register(t + 2));
    assert Register(t + 4) == Shifted(Register(t + 3));
    assert Register(t + 5) == Shifted(Register(t + 4));
    assert Register(t + 6) == Shifted(Register(t + 5));
    assert Register(t + 7) == Shifted(Register(t + 6));
  }

  lemma {:induction false} RegistersAreRight(round: nat)
    requires round < 24
    ensures RegisterOf(round) == Register(7 * round)
  {
    hide RegisterOf, Register, SevenShifts;
    if round == 0 {
      FirstRegister();
    } else {
      RegistersAreRight(round - 1);
      RegisterSteps(round);
      SevenMore(7 * (round - 1));
    }
  }

  lemma FirstRegister()
    ensures RegisterOf(0) == Register(0)
  {
  }

  /** Every constant of the table is the one the standard's register gives. */
  lemma RoundConstantsAreTheStandards(round: nat)
    requires round < 24
    ensures RoundConstant(round) == ConstantFrom(Register(7 * round))
  {
    hide ConstantFrom, Register, RoundConstant, RegisterOf;
    RegistersAreRight(round);
    ConstantOfRegister(round);
  }

  // ----- Section 4: the sponge, and section 6.1: the hash functions -----

  function ZeroState(): Lanes {
    seq(25, _ => 0)
  }

  /** Section 3.1.2: eight bytes as a lane, lowest byte first. */
  function LaneOf(b: seq<bv8>): bv64
    requires |b| == 8
  {
    (b[0] as bv64) | ((b[1] as bv64) << 8) | ((b[2] as bv64) << 16) | ((b[3] as bv64) << 24)
    | ((b[4] as bv64) << 32) | ((b[5] as bv64) << 40) | ((b[6] as bv64) << 48) | ((b[7] as bv64) << 56)
  }

  function LaneBytes(v: bv64): (s: seq<bv8>)
    ensures |s| == 8
  {
    [(v & 0xff) as bv8, ((v >> 8) & 0xff) as bv8, ((v >> 16) & 0xff) as bv8, ((v >> 24) & 0xff) as bv8,
     ((v >> 32) & 0xff) as bv8, ((v >> 40) & 0xff) as bv8, ((v >> 48) & 0xff) as bv8, ((v >> 56) & 0xff) as bv8]
  }

  /** The first `n` lanes of a state, as bytes. */
  function StateBytes(a: Lanes, n: nat): (s: seq<bv8>)
    requires n <= 25
    ensures |s| == 8 * n
  {
    if n == 0 then [] else StateBytes(a, n - 1) + LaneBytes(a[n - 1])
  }

  function XorLane(a: Lanes, bytes: seq<bv8>, i: nat): bv64
    requires |bytes| == 200 && i < 25
  {
    Xor(a[i], LaneOf(bytes[8 * i..8 * i + 8]))
  }

  /** A whole state's worth of bytes, exclusive-ored in. */
  function XorBytes(a: Lanes, bytes: seq<bv8>): Lanes
    requires |bytes| == 200
  {
    seq(25, i requires 0 <= i < 25 => XorLane(a, bytes, i))
  }

  predicate IsRate(rate: nat) {
    8 <= rate <= 200 && rate % 8 == 0
  }

  /** What a sponge is built on. */
  type Permutation = Lanes -> Lanes

  /** One step of the sponge: a block, filled up with the capacity's zeros. */
  function AbsorbBlock(f: Permutation, a: Lanes, block: seq<bv8>): Lanes
    requires |block| <= 200
  {
    f(XorBytes(a, block + Zeros(200 - |block|)))
  }

  predicate Whole(data: seq<bv8>, rate: nat)
    requires IsRate(rate)
  {
    data == [] || (rate <= |data| && Whole(data[rate..], rate))
  }

  function AbsorbAll(f: Permutation, a: Lanes, data: seq<bv8>, rate: nat): Lanes
    requires IsRate(rate) && Whole(data, rate)
    decreases |data|
  {
    if data == [] then a else AbsorbAll(f, AbsorbBlock(f, a, data[..rate]), data[rate..], rate)
  }

  function Squeeze(f: Permutation, a: Lanes, rate: nat, output: nat): (s: seq<bv8>)
    requires IsRate(rate)
    ensures |s| == output
    decreases output
  {
    if output <= rate then StateBytes(a, rate / 8)[..output]
    else StateBytes(a, rate / 8) + Squeeze(f, f(a), rate, output - rate)
  }

  /** The suffix 01 and the pad10*1 that fill `q` bytes (appendix B.2). */
  function Padding(q: nat): (s: seq<bv8>)
    requires q >= 1
    ensures |s| == q
  {
    if q == 1 then [0x86] else [0x06] + Zeros(q - 2) + [0x80]
  }

  function Padded(message: seq<bv8>, rate: nat): (s: seq<bv8>)
    requires IsRate(rate)
    ensures Whole(s, rate)
  {
    PaddedIsWhole(message, rate);
    message + Padding(rate - Left(|message|, rate))
  }

  predicate IsWidth(bits: nat) {
    bits == 224 || bits == 256 || bits == 384 || bits == 512
  }

  /** The state less a capacity of twice the digest. */
  function RateOf(bits: nat): (rate: nat)
    requires IsWidth(bits)
    ensures IsRate(rate) && bits / 8 <= rate
  {
    200 - 2 * (bits / 8)
  }

  function Digest(message: seq<bv8>, bits: nat): seq<bv8>
    requires IsWidth(bits)
  {
    Squeeze(Keccak, AbsorbAll(Keccak, ZeroState(), Padded(message, RateOf(bits)), RateOf(bits)), RateOf(bits), bits / 8)
  }

  /** What is left of `n` bytes after whole blocks: `n` modulo the rate. */
  function Left(n: nat, rate: nat): (k: nat)
    requires IsRate(rate)
    ensures k < rate
  {
    if n < rate then n else Left(n - rate, rate)
  }

  function Remainder(n: nat, bits: nat): nat
    requires IsWidth(bits)
  {
    n % RateOf(bits)
  }

  lemma {:induction false} LeftIsTheRemainder(n: nat, bits: nat)
    requires IsWidth(bits)
    ensures Left(n, RateOf(bits)) == Remainder(n, bits)
  {
    hide Remainder, RateOf;
    if n < RateOf(bits) {
      SmallRemainder(n, bits);
    } else {
      LeftIsTheRemainder(n - RateOf(bits), bits);
      OneRateLess(n - RateOf(bits), bits);
    }
  }

  lemma SmallRemainder(n: nat, bits: nat)
    requires IsWidth(bits) && n < RateOf(bits)
    ensures Remainder(n, bits) == n
  {
  }

  lemma OneRateLess(n: nat, bits: nat)
    requires IsWidth(bits)
    ensures Remainder(n + RateOf(bits), bits) == Remainder(n, bits)
  {
    if bits == 224 {
      assert (n + 144) % 144 == n % 144;
    } else if bits == 256 {
      assert (n + 136) % 136 == n % 136;
    } else if bits == 384 {
      assert (n + 104) % 104 == n % 104;
    } else {
      assert (n + 72) % 72 == n % 72;
    }
  }

  lemma {:induction false} WholeLeaves(data: seq<bv8>, rate: nat, k: nat)
    requires IsRate(rate) && k < rate && Whole(data, rate)
    ensures Left(|data| + k, rate) == k
    decreases |data|
  {
    if data != [] {
      WholeLeaves(data[rate..], rate, k);
    }
  }

  lemma {:induction false} PaddedIsWhole(message: seq<bv8>, rate: nat)
    requires IsRate(rate)
    ensures Whole(message + Padding(rate - Left(|message|, rate)), rate)
    decreases |message|
  {
    hide Padding;
    var s := message + Padding(rate - Left(|message|, rate));
    if |message| < rate {
      assert s[rate..] == [];
    } else {
      assert s[rate..] == message[rate..] + Padding(rate - Left(|message|, rate));
      PaddedIsWhole(message[rate..], rate);
    }
  }

  lemma {:induction false} WholeConcat(a: seq<bv8>, block: seq<bv8>, rate: nat)
    requires IsRate(rate) && Whole(a, rate) && |block| == rate
    ensures Whole(a + block, rate)
    decreases |a|
  {
    if a == [] {
      assert a + block == block && block[rate..] == [];
    } else {
      assert (a + block)[rate..] == a[rate..] + block;
      WholeConcat(a[rate..], block, rate);
    }
  }

  /** Absorbing one more block is absorbing it last. */
  lemma {:induction false} AbsorbOneMore(f: Permutation, state: Lanes, a: seq<bv8>, block: seq<bv8>, rate: nat)
    requires IsRate(rate) && Whole(a, rate) && |block| == rate
    ensures Whole(a + block, rate)
    ensures AbsorbAll(f, state, a + block, rate) == AbsorbBlock(f, AbsorbAll(f, state, a, rate), block)
    decreases |a|
  {
    hide AbsorbBlock;
    WholeConcat(a, block, rate);
    if a == [] {
      assert a + block == block && block[rate..] == [] && block[..rate] == block;
    } else {
      assert (a + block)[rate..] == a[rate..] + block && (a + block)[..rate] == a[..rate];
      AbsorbOneMore(f, AbsorbBlock(f, state, a[..rate]), a[rate..], block, rate);
    }
  }

  /** Exclusive-ors one rate-sized block into the state. */
  method Absorb(state: array<bv64>, block: seq<bv8>)
    requires state.Length == 25 && IsRate(|block|)
    modifies state
    ensures state[..] == XorBytes(old(state[..]), block + Zeros(200 - |block|))
  {
    hide Xor, LaneOf, XorLane;
    ghost var a: Lanes := state[..];
    ghost var bytes := block + Zeros(200 - |block|);
    for index := 0 to |block| / 8
      invariant forall i :: 0 <= i < 25 ==> state[i] == if i < index then XorLane(a, bytes, i) else a[i]
    {
      ChunkOf(a, block, index);
      state[index] := Xor(state[index], LaneOf(block[8 * index..8 * index + 8]));
    }
    forall i | |block| / 8 <= i < 25 ensures XorLane(a, bytes, i) == a[i] {
      NoChunk(a, block, i);
    }
  }

  lemma ChunkOf(a: Lanes, block: seq<bv8>, index: nat)
    requires IsRate(|block|) && index < |block| / 8
    ensures XorLane(a, block + Zeros(200 - |block|), index) == Xor(a[index], LaneOf(block[8 * index..8 * index + 8]))
  {
    hide Xor, LaneOf;
    assert (block + Zeros(200 - |block|))[8 * index..8 * index + 8] == block[8 * index..8 * index + 8];
  }

  /** The capacity's lanes are left alone. */
  lemma NoChunk(a: Lanes, block: seq<bv8>, index: nat)
    requires IsRate(|block|) && |block| / 8 <= index < 25
    ensures XorLane(a, block + Zeros(200 - |block|), index) == a[index]
  {
    assert (block + Zeros(200 - |block|))[8 * index..8 * index + 8] == [0, 0, 0, 0, 0, 0, 0, 0];
    NoLane();
    XorNothing(a[index]);
    hide LaneOf, Xor;
  }

  lemma NoLane()
    ensures LaneOf([0, 0, 0, 0, 0, 0, 0, 0]) == 0
  {
  }

  lemma XorNothing(v: bv64)
    ensures Xor(v, 0) == v
  {
  }

  // ----- Squeezing -----

  lemma {:induction false} StateBytesGrow(a: Lanes, n: nat, m: nat)
    requires n <= m <= 25
    ensures StateBytes(a, m)[..8 * n] == StateBytes(a, n)
  {
    hide LaneBytes;
    if n < m {
      StateBytesGrow(a, n, m - 1);
      assert StateBytes(a, m)[..8 * n] == StateBytes(a, m - 1)[..8 * n];
    }
  }

  /** The bytes of a block's lanes up to some byte of lane `index`. */
  lemma PartOfBlock(a: Lanes, rate: nat, index: nat, k: nat)
    requires IsRate(rate) && index < rate / 8 && k <= 8
    ensures StateBytes(a, index) + LaneBytes(a[index])[..k] == StateBytes(a, rate / 8)[..8 * index + k]
  {
    hide LaneBytes;
    StateBytesGrow(a, index + 1, rate / 8);
    assert StateBytes(a, index + 1) == StateBytes(a, index) + LaneBytes(a[index]);
    assert StateBytes(a, rate / 8)[..8 * index + k] == StateBytes(a, index + 1)[..8 * index + k];
  }

  /** Once a block's first bytes make the output long enough, they are the rest of
      it. */
  lemma SqueezeStops(f: Permutation, a: Lanes, rate: nat, output: nat)
    requires IsRate(rate) && output <= rate
    ensures Squeeze(f, a, rate, output) == StateBytes(a, rate / 8)[..output]
  {
  }

  lemma SqueezeGoesOn(f: Permutation, a: Lanes, rate: nat, output: nat)
    requires IsRate(rate) && rate < output
    ensures Squeeze(f, a, rate, output) == StateBytes(a, rate / 8) + Squeeze(f, f(a), rate, output - rate)
  {
    hide StateBytes;
  }

  /** Reads the rate out a lane at a time, permuting whenever the block runs out. */
  method SqueezeOut(state: array<bv64>, rate: nat, output: nat) returns (digest: seq<bv8>)
    requires state.Length == 25 && IsRate(rate)
    modifies state
    ensures digest == Squeeze(Keccak, old(state[..]), rate, output)
  {
    hide Squeeze, StateBytes, LaneBytes, Keccak;
    ghost var all := Squeeze(Keccak, state[..], rate, output);
    digest := [];
    label squeeze: while true
      invariant |digest| <= output
      invariant digest + Squeeze(Keccak, state[..], rate, output - |digest|) == all
      decreases output - |digest|
    {
      ghost var start := digest;
      ghost var a: Lanes := state[..];
      ghost var missing := output - |start|;
      BlockStart(a);
      for index := 0 to rate / 8
        invariant state[..] == a && digest == start + StateBytes(a, index)
        invariant |digest| <= output
      {
        var bytes := LaneBytes(state[index]);
        for k := 0 to 8
          invariant state[..] == a && digest == start + (StateBytes(a, index) + bytes[..k])
          invariant |digest| <= output
        {
          if |digest| == output {
            PartOfBlock(a, rate, index, k);
            SqueezeStops(Keccak, a, rate, missing);
            assert digest == all;
            break squeeze;
          }
          assert bytes[..k + 1] == bytes[..k] + [bytes[k]];
          digest := digest + [bytes[k]];
        }
        LaneDone(a, index);
      }
      if |digest| == output {
        SqueezeStops(Keccak, a, rate, missing);
        assert digest == all;
        break;
      }
      SqueezeGoesOn(Keccak, a, rate, missing);
      KeccakF(state);
    }
  }

  lemma BlockStart(a: Lanes)
    ensures StateBytes(a, 0) == []
  {
  }

  lemma LaneDone(a: Lanes, index: nat)
    requires index < 25
    ensures StateBytes(a, index + 1) == StateBytes(a, index) + LaneBytes(a[index])[..8]
  {
  }

  // ----- The streaming sponge -----

  class Sponge {
    const state: array<bv64>
    const rate: nat
    var pending: seq<bv8>
    const output: nat
    /** The blocks absorbed so far. */
    ghost var absorbed: seq<bv8>

    constructor (bits: nat)
      requires IsWidth(bits)
      ensures Valid() && fresh(state) && Fed() == [] && rate == RateOf(bits) && output == bits / 8
    {
      output := bits / 8;
      rate := 200 - 2 * (bits / 8);
      pending := [];
      absorbed := [];
      state := new bv64[25](_ => 0);
      new;
      assert state[..] == ZeroState();
    }

    ghost predicate Valid()
      reads this, state
    {
      && IsRate(rate) && output <= rate && |pending| < rate
      && AbsorbedState(state, absorbed, rate)
    }

    /** Every byte taken in. */
    ghost function Fed(): seq<bv8>
      reads this
    {
      absorbed + pending
    }

    /** Feeds bytes in, absorbing every whole block there is. */
    method Update(data: seq<bv8>)
      requires Valid()
      modifies this, state
      ensures Valid() && Fed() == old(Fed()) + data
    {
      hide AbsorbedState;
      pending := pending + data;
      var offset: nat := 0;
      while offset + rate <= |pending|
        invariant IsRate(rate) && output <= rate && AbsorbedState(state, absorbed, rate)
        invariant pending == old(pending) + data && offset <= |pending|
        invariant absorbed + pending[offset..] == old(absorbed) + pending
      {
        var block := pending[offset..offset + rate];
        AbsorbAndPermute(state, block, absorbed, rate);
        assert pending[offset..] == block + pending[offset + rate..];
        absorbed := absorbed + block;
        offset := offset + rate;
      }
      pending := pending[offset..];
    }

    /** Pads, absorbs the last block and squeezes the digest out. */
    method Finish() returns (digest: seq<bv8>)
      requires Valid()
      modifies state
      ensures digest == Squeeze(Keccak, AbsorbAll(Keccak, ZeroState(), Padded(old(Fed()), rate), rate), rate, output)
    {
      hide Squeeze, AbsorbAll, Padded, Whole, Padding, Zeros;
      var last := new bv8[rate](_ => 0);
      forall k | 0 <= k < |pending| {
        last[k] := pending[k];
      }
      last[|pending|] := 0x06;
      last[rate - 1] := last[rate - 1] | 0x80;
      LastBlock(last[..], pending, rate);
      AbsorbAndPermute(state, last[..], absorbed, rate);
      PaddedInBlocks(absorbed, pending, rate);
      digest := SqueezeOut(state, rate, output);
    }
  }

  /** A state array holds what absorbing whole blocks gives. */
  ghost predicate AbsorbedState(state: array<bv64>, absorbed: seq<bv8>, rate: nat)
    reads state
  {
    && state.Length == 25 && IsRate(rate) && Whole(absorbed, rate)
    && state[..] == AbsorbAll(Keccak, ZeroState(), absorbed, rate)
  }

  method AbsorbAndPermute(state: array<bv64>, block: seq<bv8>, ghost absorbed: seq<bv8>, rate: nat)
    requires IsRate(rate) && AbsorbedState(state, absorbed, rate) && |block| == rate
    modifies state
    ensures AbsorbedState(state, absorbed + block, rate)
  {
    hide AbsorbAll, Keccak, XorBytes, Whole;
    AbsorbOneMore(Keccak, ZeroState(), absorbed, block, rate);
    Absorb(state, block);
    KeccakF(state);
  }

  lemma LastBlock(last: seq<bv8>, pending: seq<bv8>, rate: nat)
    requires |pending| < rate && |last| == rate
    requires forall k :: 0 <= k < |pending| ==> last[k] == pending[k]
    requires last[|pending|] == if |pending| == rate - 1 then 0x86 else 0x06
    requires forall k :: |pending| < k < rate - 1 ==> last[k] == 0
    requires |pending| < rate - 1 ==> last[rate - 1] == 0x80
    ensures last == pending + Padding(rate - |pending|)
  {
  }

  lemma PaddedInBlocks(absorbed: seq<bv8>, pending: seq<bv8>, rate: nat)
    requires IsRate(rate) && Whole(absorbed, rate) && |pending| < rate
    ensures Padded(absorbed + pending, rate) == absorbed + (pending + Padding(rate - |pending|))
  {
    hide Padding;
    WholeLeaves(absorbed, rate, |pending|);
  }

  /** A new sponge fed a message in any pieces gives the digest of the whole
      message. */
  method FeedPieces(sponge: Sponge, pieces: seq<seq<bv8>>, bits: nat) returns (digest: seq<bv8>)
    requires IsWidth(bits) && sponge.rate == RateOf(bits) && sponge.output == bits / 8
    requires sponge.Valid() && sponge.Fed() == []
    modifies sponge, sponge.state
    ensures digest == Digest(Joined(pieces), bits) && |digest| == bits / 8
  {
    hide Sponge.Valid, Sponge.Fed, Squeeze, AbsorbAll, Padded, RateOf;
    for at := 0 to |pieces|
      invariant sponge.Valid() && sponge.Fed() == Joined(pieces[..at])
    {
      assert pieces[..at + 1][..at] == pieces[..at];
      sponge.Update(pieces[at]);
    }
    assert pieces[..|pieces|] == pieces;
    digest := sponge.Finish();
  }

  // ----- The padding, bit by bit -----

  /** A byte's bits, lowest first (section B.1). */
  function ByteBits(b: bv8): (s: seq<bool>)
    ensures |s| == 8
  {
    [b & 1 != 0, b & 2 != 0, b & 4 != 0, b & 8 != 0, b & 16 != 0, b & 32 != 0, b & 64 != 0, b & 128 != 0]
  }

  function BytesBits(s: seq<bv8>): (r: seq<bool>)
    ensures |r| == 8 * |s|
  {
    if s == [] then [] else BytesBits(s[..|s| - 1]) + ByteBits(s[|s| - 1])
  }

  function NoBits(n: nat): (s: seq<bool>)
    ensures |s| == n
  {
    seq(n, _ => false)
  }

  /** Section 5.1: a one, as few zeros as reach the block's end, and a one. */
  function Pad101(space: nat): (s: seq<bool>)
    requires space >= 2
    ensures |s| == space
  {
    [true] + NoBits(space - 2) + [true]
  }

  lemma {:induction false} ZeroBits(n: nat)
    ensures BytesBits(Zeros(n)) == NoBits(8 * n)
  {
    if n > 0 {
      ZeroBits(n - 1);
      assert Zeros(n)[..n - 1] == Zeros(n - 1);
      assert ByteBits(0) == NoBits(8);
    }
  }

  lemma LastByte(s: seq<bv8>, b: bv8)
    ensures BytesBits(s + [b]) == BytesBits(s) + ByteBits(b)
  {
    assert (s + [b])[..|s|] == s;
  }

  lemma {:induction false} BitsOfConcat(s: seq<bv8>, t: seq<bv8>)
    ensures BytesBits(s + t) == BytesBits(s) + BytesBits(t)
  {
    hide ByteBits;
    if t == [] {
      assert s + t == s;
    } else {
      var front := t[..|t| - 1];
      assert s + t == (s + front) + [t[|t| - 1]];
      LastByte(s + front, t[|t| - 1]);
      BitsOfConcat(s, front);
    }
  }

  lemma EdgeBits()
    ensures ByteBits(0x86) == [false, true] + Pad101(6)
    ensures ByteBits(0x06) == [false, true] + [true] + NoBits(5)
    ensures ByteBits(0x80) == NoBits(7) + [true]
  {
  }

  lemma OneByteBits(b: bv8)
    ensures BytesBits([b]) == ByteBits(b)
  {
    LastByte([], b);
    assert [] + [b] == [b];
  }

  /** The padding bytes are the suffix 01 and pad10*1 of sections 6.1 and 5.1. */
  lemma PaddingIsTheStandards(q: nat)
    requires q >= 1
    ensures BytesBits(Padding(q)) == [false, true] + Pad101(8 * q - 2)
  {
    hide ByteBits, BytesBits;
    EdgeBits();
    if q == 1 {
      OneByteBits(0x86);
    } else {
      BitsOfConcat([0x06] + Zeros(q - 2), [0x80]);
      BitsOfConcat([0x06], Zeros(q - 2));
      OneByteBits(0x06);
      OneByteBits(0x80);
      ZeroBits(q - 2);
      assert NoBits(5) + NoBits(8 * (q - 2)) + NoBits(7) == NoBits(8 * q - 4);
    }
  }
}
