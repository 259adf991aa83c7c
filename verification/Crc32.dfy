/** CRC-32/ISO-HDLC: the bit-serial register it is defined by, the byte and
    slice tables, the slice-by-eight loop that must answer the same, and the
    bursts the check never misses. */
module Crc32 {

  // ----- Words -----
  //
  // Named so that a proof about the register can leave the bit-vector operators
  // out of sight and use only the laws stated here.

  function Xor(a: bv32, b: bv32): bv32 {
    a ^ b
  }

  function Or(a: bv32, b: bv32): bv32 {
    a | b
  }

  function Not(a: bv32): bv32 {
    !a
  }

  function Widen(b: bv8): bv32 {
    b as bv32
  }

  function LowByte(v: bv32): bv8 {
    (v & 0xff) as bv8
  }

  function Up(v: bv32): bv32 {
    v << 8
  }

  function Down(v: bv32): bv32 {
    v >> 8
  }

  /** Four bytes as a little-endian word. */
  function Little(b0: bv8, b1: bv8, b2: bv8, b3: bv8): bv32 {
    Or(Or(Or(Widen(b0), Up(Widen(b1))), Up(Up(Widen(b2)))), Up(Up(Up(Widen(b3)))))
  }

  lemma XorLaws(a: bv32, b: bv32, c: bv32)
    ensures Xor(Xor(a, b), c) == Xor(a, Xor(b, c))
    ensures Xor(a, b) == Xor(b, a)
  {
  }

  lemma NotNot(a: bv32)
    ensures Not(Not(a)) == a
  {
  }

  lemma DisjointOr(a: bv32, b: bv32)
    requires a & b == 0
    ensures a | b == a ^ b
  {
  }

  lemma OrIsXor(a: bv32, b: bv32)
    requires a & b == 0
    ensures Or(a, b) == Xor(a, b)
  {
    DisjointOr(a, b);
  }

  lemma SecondByteIsFree(b0: bv8, b1: bv8)
    ensures Widen(b0) & Up(Widen(b1)) == 0
  {
  }

  lemma TwoBytesAreLow(b0: bv8, b1: bv8)
    ensures Or(Widen(b0), Up(Widen(b1))) & 0xffff_0000 == 0
  {
  }

  lemma ThirdByteIsFree(low: bv32, b2: bv8)
    requires low & 0xffff_0000 == 0
    ensures low & Up(Up(Widen(b2))) == 0
  {
  }

  lemma ThreeBytesAreLow(low: bv32, b2: bv8)
    requires low & 0xffff_0000 == 0
    ensures Or(low, Up(Up(Widen(b2)))) & 0xff00_0000 == 0
  {
  }

  lemma FourthByteIsFree(low: bv32, b3: bv8)
    requires low & 0xff00_0000 == 0
    ensures low & Up(Up(Up(Widen(b3)))) == 0
  {
  }

  /** The bytes of a word overlap nowhere. */
  lemma LittleIsXor(b0: bv8, b1: bv8, b2: bv8, b3: bv8)
    ensures Little(b0, b1, b2, b3) ==
            Xor(Xor(Xor(Widen(b0), Up(Widen(b1))), Up(Up(Widen(b2)))), Up(Up(Up(Widen(b3)))))
  {
    hide Xor, Or, Up, Widen;
    var low1 := Or(Widen(b0), Up(Widen(b1)));
    var low2 := Or(low1, Up(Up(Widen(b2))));
    SecondByteIsFree(b0, b1);
    TwoBytesAreLow(b0, b1);
    ThirdByteIsFree(low1, b2);
    ThreeBytesAreLow(low1, b2);
    FourthByteIsFree(low2, b3);
    OrIsXor(Widen(b0), Up(Widen(b1)));
    OrIsXor(low1, Up(Up(Widen(b2))));
    OrIsXor(low2, Up(Up(Up(Widen(b3)))));
  }

  lemma LittleParts(s: bv32, b0: bv8, b1: bv8, b2: bv8, b3: bv8)
    ensures Xor(Xor(Xor(Xor(s, Widen(b0)), Up(Widen(b1))), Up(Up(Widen(b2)))), Up(Up(Up(Widen(b3))))) ==
            Xor(s, Little(b0, b1, b2, b3))
  {
    hide Xor, Little, Widen, Up;
    var w0, w1, w2, w3 := Widen(b0), Up(Widen(b1)), Up(Up(Widen(b2))), Up(Up(Up(Widen(b3))));
    LittleIsXor(b0, b1, b2, b3);
    XorLaws(s, w0, w1);
    XorLaws(s, Xor(w0, w1), w2);
    XorLaws(s, Xor(Xor(w0, w1), w2), w3);
  }

  lemma WordParts(v: bv32)
    ensures v == Xor(Xor(Xor(Widen(LowByte(v)), Up(Widen(LowByte(Down(v))))),
                         Up(Up(Widen(LowByte(Down(Down(v))))))), Up(Up(Up(Widen(LowByte(Down(Down(Down(v)))))))))
  {
  }

  lemma DownOfUp(b: bv8)
    ensures Down(Up(Widen(b))) == Widen(b)
    ensures Down(Up(Up(Widen(b)))) == Up(Widen(b))
    ensures Down(Up(Up(Up(Widen(b))))) == Up(Up(Widen(b)))
  {
  }

  lemma UpIsClear(v: bv32)
    ensures Up(v) & 0xff == 0
  {
  }

  lemma SplitLowByte(v: bv32)
    ensures Xor(Widen(LowByte(v)), v & 0xffff_ff00) == v
    ensures (v & 0xffff_ff00) & 0xff == 0 && Down(v & 0xffff_ff00) == Down(v)
  {
  }

  // ----- The register, one bit at a time -----

  const POLYNOMIAL: bv32 := 0xedb8_8320

  function Odd(v: bv32): bool {
    v & 1 == 1
  }

  function Half(v: bv32): bv32 {
    v >> 1
  }

  /** One turn of the register, with the reflected polynomial. */
  function Step(v: bv32): bv32 {
    if Odd(v) then Xor(POLYNOMIAL, Half(v)) else Half(v)
  }

  function Steps(v: bv32, n: nat): bv32
    decreases n
  {
    if n == 0 then v else Steps(Step(v), n - 1)
  }

  /** The register after a message. */
  function Register(s: bv32, data: seq<bv8>): bv32
    decreases |data|
  {
    if data == [] then s else Register(Steps(Xor(s, Widen(data[0])), 8), data[1..])
  }

  /** The checksum of `data` continued from a previous result. */
  function Crc(previous: bv32, data: seq<bv8>): bv32 {
    Not(Register(Not(previous), data))
  }

  lemma HalfLinear(a: bv32, b: bv32)
    ensures Half(Xor(a, b)) == Xor(Half(a), Half(b))
  {
  }

  lemma OddLinear(a: bv32, b: bv32)
    ensures Odd(Xor(a, b)) <==> Odd(a) != Odd(b)
  {
  }

  lemma XorTwice(p: bv32, y: bv32)
    ensures Xor(p, Xor(p, y)) == y
  {
  }

  lemma XorCancels(p: bv32, x: bv32, y: bv32)
    ensures Xor(Xor(p, x), Xor(p, y)) == Xor(x, y)
  {
    hide Xor;
    XorLaws(p, x, 0);
    XorLaws(x, p, Xor(p, y));
    XorTwice(p, y);
  }

  lemma StepLinear(a: bv32, b: bv32)
    ensures Step(Xor(a, b)) == Xor(Step(a), Step(b))
  {
    hide Xor, Odd, Half;
    var x, y := Half(a), Half(b);
    HalfLinear(a, b);
    OddLinear(a, b);
    XorCancels(POLYNOMIAL, x, y);
    XorLaws(POLYNOMIAL, x, y);
    XorLaws(x, y, POLYNOMIAL);
    XorLaws(x, Xor(POLYNOMIAL, y), 0);
    XorLaws(POLYNOMIAL, y, x);
  }

  lemma {:induction false} StepsLinear(a: bv32, b: bv32, n: nat)
    ensures Steps(Xor(a, b), n) == Xor(Steps(a, n), Steps(b, n))
    decreases n
  {
    hide Step, Xor;
    if n != 0 {
      StepLinear(a, b);
      StepsLinear(Step(a), Step(b), n - 1);
    }
  }

  lemma {:induction false} StepsAdd(v: bv32, m: nat, n: nat)
    ensures Steps(Steps(v, m), n) == Steps(v, m + n)
    decreases m
  {
    hide Step;
    if m != 0 {
      StepsAdd(Step(v), m - 1, n);
    }
  }

  /** The top bit of the result says which branch was taken. */
  lemma StepInjective(a: bv32, b: bv32)
    requires Step(a) == Step(b)
    ensures a == b
  {
  }

  lemma {:induction false} StepsInjective(a: bv32, b: bv32, n: nat)
    requires Steps(a, n) == Steps(b, n)
    ensures a == b
    decreases n
  {
    hide Step;
    if n != 0 {
      StepsInjective(Step(a), Step(b), n - 1);
      StepInjective(a, b);
    }
  }

  /** While the low byte is clear a step is a plain shift. */
  lemma ClearByteShifts(v: bv32)
    requires v & 0xff == 0
    ensures Steps(v, 8) == Down(v)
  {
    EightShifts(v);
    var v4 := v >> 4;
    FourSteps(v, v >> 1, v >> 2, v >> 3, v4);
    FourSteps(v4, v >> 5, v >> 6, v >> 7, v >> 8);
    StepsAdd(v, 4, 4);
    hide Step, Steps;
  }

  lemma EightShifts(v: bv32)
    requires v & 0xff == 0
    ensures Step(v) == v >> 1 && Step(v >> 1) == v >> 2 && Step(v >> 2) == v >> 3 && Step(v >> 3) == v >> 4
    ensures Step(v >> 4) == v >> 5 && Step(v >> 5) == v >> 6 && Step(v >> 6) == v >> 7 && Step(v >> 7) == v >> 8
  {
  }

  lemma FourSteps(v: bv32, v1: bv32, v2: bv32, v3: bv32, v4: bv32)
    requires Step(v) == v1 && Step(v1) == v2 && Step(v2) == v3 && Step(v3) == v4
    ensures Steps(v, 4) == v4
  {
    hide Step;
    assert Steps(v3, 1) == v4 by { assert Steps(v4, 0) == v4; }
    assert Steps(v2, 2) == v4;
    assert Steps(v1, 3) == v4;
  }

  /** Eight steps are a table lookup by the low byte and a shift. */
  lemma LookupAndShift(v: bv32)
    ensures Steps(v, 8) == Xor(Steps(Widen(LowByte(v)), 8), Down(v))
  {
    var high := v & 0xffff_ff00;
    SplitLowByte(v);
    ClearByteShifts(high);
    hide Step, Steps, Xor, Widen, LowByte, Down;
    StepsLinear(Widen(LowByte(v)), high, 8);
  }

  lemma {:induction false} RegisterConcat(s: bv32, a: seq<bv8>, b: seq<bv8>)
    ensures Register(s, a + b) == Register(Register(s, a), b)
    decreases |a|
  {
    hide Steps, Xor, Widen;
    if a == [] {
      assert a + b == b;
    } else {
      assert (a + b)[1..] == a[1..] + b;
      RegisterConcat(Steps(Xor(s, Widen(a[0])), 8), a[1..], b);
    }
  }

  /** However a message is cut, the pieces give the checksum of the whole. */
  lemma CrcOfPieces(previous: bv32, a: seq<bv8>, b: seq<bv8>)
    ensures Crc(Crc(previous, a), b) == Crc(previous, a + b)
  {
    hide Register, Not;
    RegisterConcat(Not(previous), a, b);
    NotNot(Register(Not(previous), a));
  }

  // ----- The tables -----

  /** What eight steps make of each byte. */
  ghost predicate IsByteTable(table: seq<bv32>) {
    |table| == 256 && forall k :: 0 <= k < 256 ==> table[k] == Steps(Widen(IndexByte(k)), 8)
  }

  /** Slice `n` is the byte's entry carried `n + 1` bytes further. */
  ghost predicate IsSliceTable(table: seq<bv32>, level: nat) {
    |table| == 256 && forall k :: 0 <= k < 256 ==> table[k] == Steps(Widen(IndexByte(k)), 8 * (level + 2))
  }

  /** The tables the build makes once. */
  datatype Tables = Tables(bytes: seq<bv32>, slices: seq<seq<bv32>>) {
    ghost predicate Built() {
      && IsByteTable(bytes)
      && |slices| == 7 && forall level :: 0 <= level < 7 ==> IsSliceTable(slices[level], level)
    }
  }

  function IndexByte(index: nat): (b: bv8)
    requires index < 256
  {
    index as bv8
  }

  lemma IndexOfByte(b: bv8)
    ensures 0 <= b as int < 256 && IndexByte(b as int) == b
  {
  }

  /** One entry of the byte table: eight steps, one at a time. */
  method BuildEntry(index: nat) returns (value: bv32)
    requires index < 256
    ensures value == Steps(Widen(IndexByte(index)), 8)
  {
    hide Step, Widen;
    ghost var start := Widen(IndexByte(index));
    value := Widen(IndexByte(index));
    var bit := 0;
    while bit < 8
      invariant 0 <= bit <= 8 && Steps(value, 8 - bit) == Steps(start, 8)
    {
      StepIs(value);
      value := if value & 1 == 1 then 0xedb8_8320 ^ (value >> 1) else value >> 1;
      bit := bit + 1;
    }
  }

  lemma StepIs(v: bv32)
    ensures Step(v) == if v & 1 == 1 then 0xedb8_8320 ^ (v >> 1) else v >> 1
  {
  }

  method BuildByteTable() returns (bytes: seq<bv32>)
    ensures IsByteTable(bytes)
  {
    hide Steps, Widen, IndexByte;
    var table := new bv32[256](_ => 0);
    var index := 0;
    while index < 256
      invariant 0 <= index <= 256
      invariant forall k :: 0 <= k < index ==> table[k] == Steps(Widen(IndexByte(k)), 8)
    {
      var value := BuildEntry(index);
      table[index] := value;
      index := index + 1;
    }
    bytes := table[..];
  }

  function ByteEntry(tables: Tables, index: bv32): bv32
    requires tables.Built()
  {
    tables.bytes[LowByte(index) as int]
  }

  /** One lookup and shift is eight more steps. */
  lemma LookupAdvances(bytes: seq<bv32>, v: bv32)
    requires IsByteTable(bytes)
    ensures Xor(Down(v), bytes[LowByte(v) as int]) == Steps(v, 8)
  {
    hide Steps, LowByte, Widen, Down, Xor, IndexByte;
    LookupAndShift(v);
    IndexOfByte(LowByte(v));
    XorLaws(Down(v), bytes[LowByte(v) as int], 0);
  }

  /** Carries a byte's entry one byte further per level. */
  method SliceEntry(bytes: seq<bv32>, index: nat, level: nat) returns (previous: bv32)
    requires IsByteTable(bytes) && level < 7 && index < 256
    ensures previous == Steps(Widen(IndexByte(index)), 8 * (level + 2))
  {
    hide Steps, LowByte, Widen, Down, Xor, IndexByte;
    ghost var start := Widen(IndexByte(index));
    previous := bytes[index];
    for done := 0 to level + 1
      invariant previous == Steps(start, 8 * (done + 1))
    {
      LookupAdvances(bytes, previous);
      StepsAdd(start, 8 * (done + 1), 8);
      previous := Xor(Down(previous), bytes[LowByte(previous) as int]);
    }
  }

  method BuildSlice(bytes: seq<bv32>, level: nat) returns (slice: seq<bv32>)
    requires IsByteTable(bytes) && level < 7
    ensures IsSliceTable(slice, level)
  {
    hide Steps, Widen, IndexByte, IsByteTable;
    var table := new bv32[256](_ => 0);
    var index := 0;
    while index < 256
      invariant 0 <= index <= 256
      invariant forall k :: 0 <= k < index ==> table[k] == Steps(Widen(IndexByte(k)), 8 * (level + 2))
    {
      var previous := SliceEntry(bytes, index, level);
      table[index] := previous;
      index := index + 1;
    }
    slice := table[..];
  }

  method BuildTables() returns (tables: Tables)
    ensures tables.Built()
  {
    hide IsByteTable, IsSliceTable;
    var bytes := BuildByteTable();
    var slices: seq<seq<bv32>> := [];
    for level := 0 to 7
      invariant |slices| == level
      invariant forall k :: 0 <= k < level ==> IsSliceTable(slices[k], k)
    {
      var slice := BuildSlice(bytes, level);
      slices := slices + [slice];
    }
    tables := Tables(bytes, slices);
  }

  // ----- Slice by eight -----

  /** A byte standing `k` bytes up is the byte itself after `k` bytes of steps. */
  lemma HighByteComesDown(b: bv8)
    ensures Steps(Up(Widen(b)), 8) == Widen(b)
    ensures Steps(Up(Up(Widen(b))), 16) == Widen(b)
    ensures Steps(Up(Up(Up(Widen(b)))), 24) == Widen(b)
  {
    var w := Widen(b);
    UpIsClear(w);
    UpIsClear(Up(w));
    UpIsClear(Up(Up(w)));
    ClearByteShifts(Up(w));
    ClearByteShifts(Up(Up(w)));
    ClearByteShifts(Up(Up(Up(w))));
    DownOfUp(b);
    hide Steps, Up, Down, Widen;
    StepsAdd(Up(Up(w)), 8, 8);
    StepsAdd(Up(Up(Up(w))), 8, 16);
  }

  lemma RegisterCons(s: bv32, b: bv8, data: seq<bv8>)
    ensures Register(s, [b] + data) == Register(Steps(Xor(s, Widen(b)), 8), data)
  {
    hide Steps, Xor, Widen;
    assert ([b] + data)[1..] == data;
  }

  lemma RegisterOfFour(s: bv32, b0: bv8, b1: bv8, b2: bv8, b3: bv8)
    ensures Register(s, [b0, b1, b2, b3]) ==
            Steps(Xor(Steps(Xor(Steps(Xor(Steps(Xor(s, Widen(b0)), 8), Widen(b1)), 8), Widen(b2)), 8), Widen(b3)), 8)
  {
    hide Steps, Xor, Widen, Register;
    var r1 := Steps(Xor(s, Widen(b0)), 8);
    var r2 := Steps(Xor(r1, Widen(b1)), 8);
    var r3 := Steps(Xor(r2, Widen(b2)), 8);
    RegisterCons(s, b0, [b1, b2, b3]);
    assert [b0, b1, b2, b3] == [b0] + [b1, b2, b3];
    RegisterCons(r1, b1, [b2, b3]);
    assert [b1, b2, b3] == [b1] + [b2, b3];
    RegisterCons(r2, b2, [b3]);
    assert [b2, b3] == [b2] + [b3];
    RegisterCons(r3, b3, []);
    assert [b3] == [b3] + [];
    RegisterNone(Steps(Xor(r3, Widen(b3)), 8));
  }

  /** Four bytes into the register are one word into it. */
  lemma FourBytes(s: bv32, b0: bv8, b1: bv8, b2: bv8, b3: bv8)
    ensures Register(s, [b0, b1, b2, b3]) == Steps(Xor(s, Little(b0, b1, b2, b3)), 32)
  {
    hide Steps, Xor, Widen, Up, Little, Register;
    var u1, u2, u3 := Up(Widen(b1)), Up(Up(Widen(b2))), Up(Up(Up(Widen(b3))));
    RegisterOfFour(s, b0, b1, b2, b3);
    HighByteComesDown(b1);
    HighByteComesDown(b2);
    HighByteComesDown(b3);
    var x1 := Xor(s, Widen(b0));
    StepsLinear(x1, u1, 8);
    var x2 := Xor(x1, u1);
    StepsAdd(x2, 8, 8);
    StepsLinear(x2, u2, 16);
    var x3 := Xor(x2, u2);
    StepsAdd(x3, 16, 8);
    StepsLinear(x3, u3, 24);
    var x4 := Xor(x3, u3);
    StepsAdd(x4, 24, 8);
    LittleParts(s, b0, b1, b2, b3);
  }

  /** A word's bytes may be carried separately. */
  lemma WordByBytes(v: bv32, n: nat)
    ensures Steps(v, n + 24) ==
            Xor(Xor(Xor(Steps(Widen(LowByte(v)), n + 24), Steps(Widen(LowByte(Down(v))), n + 16)),
                    Steps(Widen(LowByte(Down(Down(v)))), n + 8)), Steps(Widen(LowByte(Down(Down(Down(v))))), n))
  {
    hide Steps, Xor, Widen, Up, Down, LowByte;
    var o0, o1, o2, o3 := LowByte(v), LowByte(Down(v)), LowByte(Down(Down(v))), LowByte(Down(Down(Down(v))));
    var u0, u1, u2, u3 := Widen(o0), Up(Widen(o1)), Up(Up(Widen(o2))), Up(Up(Up(Widen(o3))));
    WordParts(v);
    StepsLinear(Xor(Xor(u0, u1), u2), u3, n + 24);
    StepsLinear(Xor(u0, u1), u2, n + 24);
    StepsLinear(u0, u1, n + 24);
    HighByteComesDown(o1);
    HighByteComesDown(o2);
    HighByteComesDown(o3);
    StepsAdd(u1, 8, n + 16);
    StepsAdd(u2, 16, n + 8);
    StepsAdd(u3, 24, n);
  }

  /** One entry of one slice table. */
  function Slice(tables: Tables, level: nat, index: bv32): bv32
    requires tables.Built() && level < 7
  {
    assert IsSliceTable(tables.slices[level], level);
    tables.slices[level][LowByte(index) as int]
  }

  lemma EntriesAreSteps(tables: Tables, level: nat, index: bv32)
    requires tables.Built() && level < 7
    ensures Slice(tables, level, index) == Steps(Widen(LowByte(index)), 8 * (level + 2))
    ensures ByteEntry(tables, index) == Steps(Widen(LowByte(index)), 8)
  {
    hide Steps, Widen, LowByte, IndexByte;
    IndexOfByte(LowByte(index));
    assert IsSliceTable(tables.slices[level], level);
  }

  /** What one turn of the fast loop computes. */
  function EightAtOnce(tables: Tables, one: bv32, two: bv32): bv32
    requires tables.Built()
  {
    var first := Xor(Xor(Xor(Slice(tables, 6, one), Slice(tables, 5, one >> 8)),
                         Slice(tables, 4, one >> 16)), Slice(tables, 3, one >> 24));
    Xor(Xor(Xor(Xor(first, Slice(tables, 2, two)), Slice(tables, 1, two >> 8)), Slice(tables, 0, two >> 16)),
        ByteEntry(tables, two >> 24))
  }

  lemma ShiftsAreDowns(v: bv32)
    ensures v >> 8 == Down(v) && v >> 16 == Down(Down(v)) && v >> 24 == Down(Down(Down(v)))
  {
  }

  lemma XorOfFourMore(a: bv32, e: bv32, f: bv32, g: bv32, h: bv32)
    ensures Xor(Xor(Xor(Xor(a, e), f), g), h) == Xor(a, Xor(Xor(Xor(e, f), g), h))
  {
    hide Xor;
    XorLaws(a, e, f);
    XorLaws(a, Xor(e, f), g);
    XorLaws(a, Xor(Xor(e, f), g), h);
  }

  lemma EightByName(tables: Tables, one: bv32, two: bv32)
    requires tables.Built()
    ensures EightAtOnce(tables, one, two) ==
            Xor(Xor(Xor(Xor(Slice(tables, 6, one), Slice(tables, 5, Down(one))), Slice(tables, 4, Down(Down(one)))),
                    Slice(tables, 3, Down(Down(Down(one))))),
                Xor(Xor(Xor(Slice(tables, 2, two), Slice(tables, 1, Down(two))), Slice(tables, 0, Down(Down(two)))),
                    ByteEntry(tables, Down(Down(Down(two))))))
  {
    hide Slice, ByteEntry, IsByteTable, IsSliceTable, Down, Xor;
    ShiftsAreDowns(one);
    ShiftsAreDowns(two);
    var first := Xor(Xor(Xor(Slice(tables, 6, one), Slice(tables, 5, one >> 8)),
                         Slice(tables, 4, one >> 16)), Slice(tables, 3, one >> 24));
    XorOfFourMore(first, Slice(tables, 2, two), Slice(tables, 1, two >> 8), Slice(tables, 0, two >> 16),
                  ByteEntry(tables, two >> 24));
  }

  /** Eight table lookups are sixty-four steps of the register. */
  lemma EightAtOnceIsSteps(tables: Tables, one: bv32, two: bv32)
    requires tables.Built()
    ensures EightAtOnce(tables, one, two) == Xor(Steps(one, 64), Steps(two, 32))
  {
    hide Steps, Slice, ByteEntry, Tables.Built, EightAtOnce, Xor, Widen, LowByte, Down;
    EightByName(tables, one, two);
    WordByBytes(one, 40);
    WordByBytes(two, 8);
    EntriesAreSteps(tables, 6, one);
    EntriesAreSteps(tables, 5, Down(one));
    EntriesAreSteps(tables, 4, Down(Down(one)));
    EntriesAreSteps(tables, 3, Down(Down(Down(one))));
    EntriesAreSteps(tables, 2, two);
    EntriesAreSteps(tables, 1, Down(two));
    EntriesAreSteps(tables, 0, Down(Down(two)));
    EntriesAreSteps(tables, 0, Down(Down(Down(two))));
  }

  function Word(w: seq<bv8>): bv32
    requires |w| == 4
  {
    Little(w[0], w[1], w[2], w[3])
  }

  lemma EightBytes(tables: Tables, s: bv32, low: seq<bv8>, high: seq<bv8>)
    requires tables.Built() && |low| == 4 && |high| == 4
    ensures Register(s, low + high) == EightAtOnce(tables, Xor(Word(low), s), Word(high))
  {
    hide Steps, EightAtOnce, Little, Register, Tables.Built, Xor;
    assert low == [low[0], low[1], low[2], low[3]] && high == [high[0], high[1], high[2], high[3]];
    RegisterConcat(s, low, high);
    FourBytes(s, low[0], low[1], low[2], low[3]);
    var one, two := Xor(Word(low), s), Word(high);
    XorLaws(s, Word(low), 0);
    FourBytes(Steps(one, 32), high[0], high[1], high[2], high[3]);
    StepsLinear(Steps(one, 32), two, 32);
    StepsAdd(one, 32, 32);
    EightAtOnceIsSteps(tables, one, two);
  }

  /** What one turn of the byte loop computes. */
  function ByteAtOnce(tables: Tables, crc: bv32, b: bv8): bv32
    requires tables.Built()
  {
    Xor(ByteEntry(tables, Xor(crc, Widen(b))), Down(crc))
  }

  lemma DownForgetsByte(s: bv32, b: bv8)
    ensures Down(Xor(s, Widen(b))) == Down(s)
  {
  }

  lemma OneByte(tables: Tables, s: bv32, b: bv8)
    requires tables.Built()
    ensures Register(s, [b]) == ByteAtOnce(tables, s, b)
  {
    hide Steps, ByteEntry, Tables.Built, LowByte, Widen, Xor, Down, Register;
    var v := Xor(s, Widen(b));
    DownForgetsByte(s, b);
    LookupAndShift(v);
    EntriesAreSteps(tables, 0, v);
    RegisterCons(s, b, []);
    assert [b] == [b] + [];
    RegisterNone(Steps(v, 8));
  }

  /** Continues a CRC-32, eight bytes a turn and then the remainder a byte at a
      time: bit for bit the register's answer. */
  method Crc32Continue(tables: Tables, previous: bv32, data: seq<bv8>) returns (crc: bv32)
    requires tables.Built()
    ensures crc == Crc(previous, data)
  {
    hide EightAtOnce, ByteAtOnce, Register, Tables.Built, Xor, Word, Not;
    crc := Not(previous);
    ghost var start := crc;
    var at: nat := 0;
    RegisterNone(crc);
    assert data[..0] == [];
    while at + 8 <= |data|
      invariant at <= |data| && crc == Register(start, data[..at])
    {
      var chunk := data[at..at + 8];
      EightBytes(tables, crc, chunk[..4], chunk[4..]);
      RegisterConcat(start, data[..at], chunk);
      assert chunk[..4] + chunk[4..] == chunk;
      assert data[..at + 8] == data[..at] + chunk;
      var one := Xor(Word(chunk[..4]), crc);
      var two := Word(chunk[4..]);
      crc := EightAtOnce(tables, one, two);
      at := at + 8;
    }
    while at < |data|
      invariant at <= |data| && crc == Register(start, data[..at])
    {
      OneByte(tables, crc, data[at]);
      RegisterConcat(start, data[..at], [data[at]]);
      assert data[..at + 1] == data[..at] + [data[at]];
      crc := ByteAtOnce(tables, crc, data[at]);
      at := at + 1;
    }
    assert data[..at] == data;
    crc := Not(crc);
  }

  lemma RegisterNone(s: bv32)
    ensures Register(s, []) == s
  {
  }

  // ----- What the check never misses -----

  /** The low `n` bits of a word, the lowest first. */
  function LowBits(w: bv32, n: nat): (bits: seq<bool>)
    ensures |bits| == n
    decreases n
  {
    if n == 0 then [] else [Odd(w)] + LowBits(Half(w), n - 1)
  }

  /** A byte as the bits the register takes in, the low bit first. */
  function BitsOf(b: bv8): (bits: seq<bool>)
    ensures |bits| == 8
  {
    LowBits(Widen(b), 8)
  }

  function MessageBits(data: seq<bv8>): (bits: seq<bool>)
    ensures |bits| == 8 * |data|
  {
    if data == [] then [] else BitsOf(data[0]) + MessageBits(data[1..])
  }

  function One(bit: bool): bv32 {
    if bit then 1 else 0
  }

  /** The register fed one bit at a time. */
  function Serial(s: bv32, bits: seq<bool>): bv32
    decreases |bits|
  {
    if bits == [] then s else Serial(Step(Xor(s, One(bits[0]))), bits[1..])
  }

  lemma {:induction false} SerialConcat(s: bv32, a: seq<bool>, b: seq<bool>)
    ensures Serial(s, a + b) == Serial(Serial(s, a), b)
    decreases |a|
  {
    hide Step, Xor, One;
    if a == [] {
      assert a + b == b;
    } else {
      assert (a + b)[1..] == a[1..] + b;
      SerialConcat(Step(Xor(s, One(a[0]))), a[1..], b);
    }
  }

  /** Bits below 2^k, as a word with the first bit lowest. */
  function BitsWord(bits: seq<bool>): bv32
    decreases |bits|
  {
    if bits == [] then 0 else Push(BitsWord(bits[1..]), bits[0])
  }

  function Push(w: bv32, bit: bool): bv32 {
    Or(w << 1, One(bit))
  }

  function Mask(k: nat): bv32 {
    if k == 0 then 0 else Push(Mask(k - 1), true)
  }

  predicate Within(w: bv32, mask: bv32) {
    w & !mask == 0
  }

  lemma PushWithin(w: bv32, mask: bv32, bit: bool)
    requires Within(w, mask)
    ensures Within(Push(w, bit), Push(mask, true))
  {
    hide Within, Or, One, Push;
    ShiftWithin(w, mask);
    OneWithin(mask, bit);
    WithinOr(w << 1, One(bit), Push(mask, true));
    PushIs(w, bit);
  }

  lemma PushIs(w: bv32, bit: bool)
    ensures Push(w, bit) == Or(w << 1, One(bit))
  {
  }

  lemma ShiftWithin(w: bv32, mask: bv32)
    requires Within(w, mask)
    ensures Within(w << 1, Push(mask, true))
  {
    assert (w << 1) & !(mask << 1) == (w & !mask) << 1;
  }

  lemma OneWithin(mask: bv32, bit: bool)
    ensures Within(One(bit), Push(mask, true))
  {
  }

  lemma WithinOr(a: bv32, b: bv32, mask: bv32)
    requires Within(a, mask) && Within(b, mask)
    ensures Within(Or(a, b), mask)
  {
  }

  lemma WithinTrans(a: bv32, b: bv32, c: bv32)
    requires Within(a, b) && Within(b, c)
    ensures Within(a, c)
  {
  }

  lemma {:induction false} BitsWithinMask(bits: seq<bool>)
    ensures Within(BitsWord(bits), Mask(|bits|))
    decreases |bits|
  {
    hide Within, Push;
    if bits == [] {
      NothingWithin();
    } else {
      BitsWithinMask(bits[1..]);
      PushWithin(BitsWord(bits[1..]), Mask(|bits| - 1), bits[0]);
    }
  }

  lemma NothingWithin()
    ensures Within(0, 0)
  {
  }

  lemma {:induction false} MaskGrows(k: nat)
    ensures Within(Mask(k), Mask(k + 1))
  {
    hide Within, Push;
    if k == 0 {
      WithinAny();
    } else {
      MaskGrows(k - 1);
      PushWithin(Mask(k - 1), Mask(k), true);
    }
  }

  lemma WithinAny()
    ensures Within(Mask(0), Mask(1))
  {
  }

  lemma {:induction false} MaskWithin31(k: nat)
    requires k <= 31
    ensures Within(Mask(k), Mask(31))
    decreases 31 - k
  {
    hide Within, Mask;
    if k < 31 {
      MaskGrows(k);
      MaskWithin31(k + 1);
      WithinTrans(Mask(k), Mask(k + 1), Mask(31));
    } else {
      WithinSelf(Mask(k));
    }
  }

  lemma WithinSelf(m: bv32)
    ensures Within(m, m)
  {
  }

  lemma Mask31()
    ensures Mask(31) == 0x7fff_ffff
  {
    assert Mask(4) == 0xf;
    assert Mask(8) == 0xff;
    assert Mask(12) == 0xfff;
    assert Mask(16) == 0xffff;
    assert Mask(20) == 0xf_ffff;
    assert Mask(24) == 0xff_ffff;
    assert Mask(28) == 0xfff_ffff;
  }

  /** A word of at most 31 bits has its top bit clear. */
  lemma ShortWordIsLow(bits: seq<bool>)
    requires |bits| <= 31
    ensures Within(BitsWord(bits), 0x7fff_ffff)
  {
    hide Within, Mask, BitsWord;
    BitsWithinMask(bits);
    MaskWithin31(|bits|);
    Mask31();
    WithinTrans(BitsWord(bits), Mask(|bits|), Mask(31));
  }

  lemma PushInjective(w: bv32, bit: bool, w': bv32, bit': bool)
    requires Within(w, 0x7fff_ffff) && Within(w', 0x7fff_ffff) && Push(w, bit) == Push(w', bit')
    ensures w == w' && bit == bit'
  {
  }

  lemma {:induction false} BitsWordInjective(a: seq<bool>, b: seq<bool>)
    requires |a| == |b| <= 32 && BitsWord(a) == BitsWord(b)
    ensures a == b
    decreases |a|
  {
    hide Within, Push;
    if a != [] {
      ShortWordIsLow(a[1..]);
      ShortWordIsLow(b[1..]);
      PushInjective(BitsWord(a[1..]), a[0], BitsWord(b[1..]), b[0]);
      BitsWordInjective(a[1..], b[1..]);
    }
  }

  /** A bit waiting one place up is the bit itself after a step. */
  lemma StepTakesBit(s: bv32, w: bv32, bit: bool)
    requires Within(w, 0x7fff_ffff)
    ensures Step(Xor(s, Push(w, bit))) == Xor(Step(Xor(s, One(bit))), w)
  {
    hide Step, Xor;
    PushIsXor(w, bit);
    XorLaws(s, One(bit), w << 1);
    StepLinear(Xor(s, One(bit)), w << 1);
    StepOfShift(w);
  }

  lemma PushIsXor(w: bv32, bit: bool)
    ensures Push(w, bit) == Xor(One(bit), w << 1)
  {
    ShiftLeavesRoom(w, bit);
    OrIsXor(w << 1, One(bit));
    hide Xor, Or, One;
    XorLaws(One(bit), w << 1, 0);
  }

  lemma ShiftLeavesRoom(w: bv32, bit: bool)
    ensures (w << 1) & One(bit) == 0
  {
  }

  lemma StepOfShift(w: bv32)
    requires Within(w, 0x7fff_ffff)
    ensures Step(w << 1) == w
  {
  }

  /** Up to 32 bits fed one at a time are one word fed at once. */
  lemma {:induction false} SerialIsSteps(s: bv32, bits: seq<bool>)
    requires |bits| <= 32
    ensures Serial(s, bits) == Steps(Xor(s, BitsWord(bits)), |bits|)
    decreases |bits|
  {
    hide Step, Xor, Push, Within, One;
    if bits == [] {
      XorNothing(s);
    } else {
      ShortWordIsLow(bits[1..]);
      SerialIsSteps(Step(Xor(s, One(bits[0]))), bits[1..]);
      StepTakesBit(s, BitsWord(bits[1..]), bits[0]);
    }
  }

  lemma XorNothing(s: bv32)
    ensures Xor(s, 0) == s
  {
  }

  lemma XorInjective(s: bv32, a: bv32, b: bv32)
    requires Xor(s, a) == Xor(s, b)
    ensures a == b
  {
  }

  lemma {:induction false} SerialInjective(a: bv32, b: bv32, bits: seq<bool>)
    requires Serial(a, bits) == Serial(b, bits)
    ensures a == b
    decreases |bits|
  {
    hide Step, Xor, One;
    if bits != [] {
      SerialInjective(Step(Xor(a, One(bits[0]))), Step(Xor(b, One(bits[0]))), bits[1..]);
      StepInjective(Xor(a, One(bits[0])), Xor(b, One(bits[0])));
      XorLaws(a, One(bits[0]), 0);
      XorLaws(b, One(bits[0]), 0);
      XorInjective(One(bits[0]), a, b);
    }
  }

  /** Two bit strings that differ only inside one window of 32 bits leave the
      register in different states. */
  lemma BurstMovesRegister(s: bv32, before: seq<bool>, x: seq<bool>, y: seq<bool>, after: seq<bool>)
    requires |x| == |y| <= 32 && x != y
    ensures Serial(s, before + x + after) != Serial(s, before + y + after)
  {
    hide Serial, Steps, Xor, BitsWord;
    var t := Serial(s, before);
    SerialConcat(s, before + x, after);
    SerialConcat(s, before, x);
    SerialConcat(s, before + y, after);
    SerialConcat(s, before, y);
    if Serial(Serial(t, x), after) == Serial(Serial(t, y), after) {
      SerialInjective(Serial(t, x), Serial(t, y), after);
      SerialIsSteps(t, x);
      SerialIsSteps(t, y);
      StepsInjective(Xor(t, BitsWord(x)), Xor(t, BitsWord(y)), |x|);
      XorInjective(t, BitsWord(x), BitsWord(y));
      BitsWordInjective(x, y);
    }
  }

  /** A byte into the register is its eight bits into it. */
  lemma ByteIsSerial(s: bv32, b: bv8)
    ensures Serial(s, BitsOf(b)) == Steps(Xor(s, Widen(b)), 8)
  {
    hide Serial, Steps, Xor;
    SerialIsSteps(s, BitsOf(b));
    BitsOfWord(b);
  }

  lemma PushHalf(w: bv32)
    ensures Push(Half(w), Odd(w)) == w
  {
  }

  lemma HalfWithin(w: bv32, m: bv32)
    requires Within(w, Push(m, true))
    ensures Within(Half(w), m)
  {
  }

  lemma {:induction false} WordOfLowBits(w: bv32, n: nat)
    requires Within(w, Mask(n))
    ensures BitsWord(LowBits(w, n)) == w
    decreases n
  {
    hide Within, Push, Half, Odd;
    if n == 0 {
      WithinNothing(w);
    } else {
      HalfWithin(w, Mask(n - 1));
      WordOfLowBits(Half(w), n - 1);
      PushHalf(w);
    }
  }

  lemma WithinNothing(w: bv32)
    requires Within(w, 0)
    ensures w == 0
  {
  }

  lemma ByteWithinMask(b: bv8)
    ensures Within(Widen(b), Mask(8))
  {
    assert Mask(4) == 0xf;
    assert Mask(8) == 0xff;
  }

  lemma BitsOfWord(b: bv8)
    ensures BitsWord(BitsOf(b)) == Widen(b)
  {
    hide Within, Mask, BitsWord, Widen;
    ByteWithinMask(b);
    WordOfLowBits(Widen(b), 8);
  }

  lemma WidenInjective(b: bv8, c: bv8)
    requires Widen(b) == Widen(c)
    ensures b == c
  {
  }

  lemma {:induction false} RegisterIsSerial(s: bv32, data: seq<bv8>)
    ensures Register(s, data) == Serial(s, MessageBits(data))
    decreases |data|
  {
    hide Steps, Xor, Widen, BitsOf, Step;
    if data != [] {
      ByteIsSerial(s, data[0]);
      SerialConcat(s, BitsOf(data[0]), MessageBits(data[1..]));
      RegisterIsSerial(Steps(Xor(s, Widen(data[0])), 8), data[1..]);
    }
  }

  /** The two messages agree outside the `width` bits from `at`. */
  ghost predicate DifferWithin(a: seq<bool>, b: seq<bool>, at: nat, width: nat) {
    && |a| == |b| && at + width <= |a|
    && a[..at] == b[..at] && a[at + width..] == b[at + width..]
  }

  /** No burst of up to 32 bits, wherever it starts, goes unseen: two messages of
      one length that differ, and differ only inside such a window, never have
      the same checksum. */
  lemma BurstIsDetected(previous: bv32, a: seq<bv8>, b: seq<bv8>, at: nat, width: nat)
    requires width <= 32 && DifferWithin(MessageBits(a), MessageBits(b), at, width)
    requires MessageBits(a) != MessageBits(b)
    ensures Crc(previous, a) != Crc(previous, b)
  {
    hide Register, Serial, MessageBits, Not;
    var x, y := MessageBits(a), MessageBits(b);
    var s := Not(previous);
    RegisterIsSerial(s, a);
    RegisterIsSerial(s, b);
    var before, after := x[..at], x[at + width..];
    assert x == before + x[at..at + width] + after;
    assert y == before + y[at..at + width] + after;
    BurstMovesRegister(s, before, x[at..at + width], y[at..at + width], after);
    NotNot(Register(s, a));
    NotNot(Register(s, b));
  }

  lemma BitsOfInjective(b: bv8, c: bv8)
    requires BitsOf(b) == BitsOf(c)
    ensures b == c
  {
    hide BitsWord, BitsOf, Widen;
    BitsOfWord(b);
    BitsOfWord(c);
    WidenInjective(b, c);
  }

  lemma {:induction false} MessageBitsInjective(a: seq<bv8>, b: seq<bv8>)
    requires MessageBits(a) == MessageBits(b)
    ensures a == b
    decreases |a|
  {
    hide BitsOf;
    assert |a| == |b|;
    if a != [] {
      assert BitsOf(a[0]) == MessageBits(a)[..8] == MessageBits(b)[..8] == BitsOf(b[0]);
      assert MessageBits(a[1..]) == MessageBits(a)[8..] == MessageBits(b)[8..] == MessageBits(b[1..]);
      BitsOfInjective(a[0], b[0]);
      MessageBitsInjective(a[1..], b[1..]);
    }
  }

  lemma {:induction false} MessageBitsConcat(a: seq<bv8>, b: seq<bv8>)
    ensures MessageBits(a + b) == MessageBits(a) + MessageBits(b)
    decreases |a|
  {
    hide BitsOf;
    if a == [] {
      assert a + b == b;
    } else {
      assert (a + b)[1..] == a[1..] + b;
      MessageBitsConcat(a[1..], b);
    }
  }

  lemma MiddlesDiffer(before: seq<bv8>, x: seq<bv8>, y: seq<bv8>, after: seq<bv8>)
    requires |x| == |y| && x != y
    ensures before + x + after != before + y + after
  {
    var k :| 0 <= k < |x| && x[k] != y[k];
    assert (before + x + after)[|before| + k] == x[k];
    assert (before + y + after)[|before| + k] == y[k];
  }

  /** In bytes: different contents of up to four consecutive bytes, anywhere in
      a message, always give different checksums. */
  lemma FourBytesAreDetected(previous: bv32, before: seq<bv8>, x: seq<bv8>, y: seq<bv8>, after: seq<bv8>)
    requires |x| == |y| <= 4 && x != y
    ensures Crc(previous, before + x + after) != Crc(previous, before + y + after)
  {
    hide MessageBits, Crc;
    MessageBitsConcat(before + x, after);
    MessageBitsConcat(before, x);
    MessageBitsConcat(before + y, after);
    MessageBitsConcat(before, y);
    MiddlesDiffer(before, x, y, after);
    if MessageBits(before + x + after) == MessageBits(before + y + after) {
      MessageBitsInjective(before + x + after, before + y + after);
    }
    BurstIsDetected(previous, before + x + after, before + y + after, 8 * |before|, 8 * |x|);
  }
}
