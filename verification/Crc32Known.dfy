/** The published check value of CRC-32/ISO-HDLC, and that a byte in front counts. The
    nine digits are taken in one at a time, eight turns of the register to each, from a
    register that starts full and is turned over at the end: without either, the check
    value would be another, and a zero byte in front of a message would go unseen. */
module Crc32Known {
  import opened Crc32

  /** One byte taken in, step by step. */
  lemma TakesByte(
    s: bv32, b: bv8, v: bv32, v1: bv32, v2: bv32, v3: bv32, v4: bv32, v5: bv32, v6: bv32, v7: bv32, v8: bv32,
    rest: seq<bv8>)
    requires Xor(s, Widen(b)) == v && Step(v) == v1 && Step(v1) == v2 && Step(v2) == v3 && Step(v3) == v4
    requires Step(v4) == v5 && Step(v5) == v6 && Step(v6) == v7 && Step(v7) == v8
    ensures Register(s, [b] + rest) == Register(v8, rest)
  {
    hide Xor, Widen, Step;
    FourSteps(v, v1, v2, v3, v4);
    FourSteps(v4, v5, v6, v7, v8);
    StepsAdd(v, 4, 4);
    RegisterCons(s, b, rest);
  }

  lemma Byte1(rest: seq<bv8>)
    ensures Register(0xffffffff, [0x31] + rest) == Register(0x7c231048, rest)
  {
    hide Register;
    TakesByte(0xffffffff, 0x31, 0xffffffce, 0x7fffffe7, 0xd2477cd3, 0x849b3d49, 0xaff51d84,
              0x57fa8ec2, 0x2bfd4761, 0xf8462090, 0x7c231048, rest);
  }

  lemma Byte2(rest: seq<bv8>)
    ensures Register(0x7c231048, [0x32] + rest) == Register(0xb0acbb32, rest)
  {
    hide Register;
    TakesByte(0x7c231048, 0x32, 0x7c23107a, 0x3e11883d, 0xf2b0473e, 0x7958239f, 0xd11492ef,
              0x8532ca57, 0xaf21e60b, 0xba287025, 0xb0acbb32, rest);
  }

  lemma Byte3(rest: seq<bv8>)
    ensures Register(0xb0acbb32, [0x33] + rest) == Register(0x77b79c2d, rest)
  {
    hide Register;
    TakesByte(0xb0acbb32, 0x33, 0xb0acbb01, 0xb5eedea0, 0x5af76f50, 0x2d7bb7a8, 0x16bddbd4,
              0x0b5eedea, 0x05af76f5, 0xef6f385a, 0x77b79c2d, rest);
  }

  lemma Byte4(rest: seq<bv8>)
    ensures Register(0x77b79c2d, [0x34] + rest) == Register(0x641c1f5c, rest)
  {
    hide Register;
    TakesByte(0x77b79c2d, 0x34, 0x77b79c19, 0xd6634d2c, 0x6b31a696, 0x3598d34b, 0xf774ea85,
              0x9602f662, 0x4b017b31, 0xc8383eb8, 0x641c1f5c, rest);
  }

  lemma Byte5(rest: seq<bv8>)
    ensures Register(0x641c1f5c, [0x35] + rest) == Register(0x340ac5e3, rest)
  {
    hide Register;
    TakesByte(0x641c1f5c, 0x35, 0x641c1f69, 0xdfb68c94, 0x6fdb464a, 0x37eda325, 0xf64e52b2,
              0x7b272959, 0xd02b178c, 0x68158bc6, 0x340ac5e3, rest);
  }

  lemma Byte6(rest: seq<bv8>)
    ensures Register(0x340ac5e3, [0x36] + rest) == Register(0xf68d2c9e, rest)
  {
    hide Register;
    TakesByte(0x340ac5e3, 0x36, 0x340ac5d5, 0xf7bde1ca, 0x7bdef0e5, 0xd057fb52, 0x682bfda9,
              0xd9ad7df4, 0x6cd6befa, 0x366b5f7d, 0xf68d2c9e, rest);
  }

  lemma Byte7(rest: seq<bv8>)
    ensures Register(0xf68d2c9e, [0x37] + rest) == Register(0xaffc9660, rest)
  {
    hide Register;
    TakesByte(0xf68d2c9e, 0x37, 0xf68d2ca9, 0x96fe1574, 0x4b7f0aba, 0x25bf855d, 0xff67418e,
              0x7fb3a0c7, 0xd2615343, 0x84882a81, 0xaffc9660, rest);
  }

  lemma Byte8(rest: seq<bv8>)
    ensures Register(0xaffc9660, [0x38] + rest) == Register(0x651f2550, rest)
  {
    hide Register;
    TakesByte(0xaffc9660, 0x38, 0xaffc9658, 0x57fe4b2c, 0x2bff2596, 0x15ff92cb, 0xe7474a45,
              0x9e1b2602, 0x4f0d9301, 0xca3e4aa0, 0x651f2550, rest);
  }

  lemma Byte9(rest: seq<bv8>)
    ensures Register(0x651f2550, [0x39] + rest) == Register(0x340bc6d9, rest)
  {
    hide Register;
    TakesByte(0x651f2550, 0x39, 0x651f2569, 0xdf371194, 0x6f9b88ca, 0x37cdc465, 0xf65e6112,
              0x7b2f3089, 0xd02f1b64, 0x68178db2, 0x340bc6d9, rest);
  }

  /** The check value: the checksum of the digits 1 to 9. */
  lemma CheckValue()
    ensures Crc(0, [0x31, 0x32, 0x33, 0x34, 0x35, 0x36, 0x37, 0x38, 0x39]) == 0xcbf43926
  {
    hide Register;
    var s0: seq<bv8> := [0x31, 0x32, 0x33, 0x34, 0x35, 0x36, 0x37, 0x38, 0x39];
    var s1: seq<bv8> := [0x32, 0x33, 0x34, 0x35, 0x36, 0x37, 0x38, 0x39];
    var s2: seq<bv8> := [0x33, 0x34, 0x35, 0x36, 0x37, 0x38, 0x39];
    var s3: seq<bv8> := [0x34, 0x35, 0x36, 0x37, 0x38, 0x39];
    var s4: seq<bv8> := [0x35, 0x36, 0x37, 0x38, 0x39];
    var s5: seq<bv8> := [0x36, 0x37, 0x38, 0x39];
    var s6: seq<bv8> := [0x37, 0x38, 0x39];
    var s7: seq<bv8> := [0x38, 0x39];
    var s8: seq<bv8> := [0x39];
    var s9: seq<bv8> := [];
    assert s0 == [0x31] + s1;
    assert s1 == [0x32] + s2;
    assert s2 == [0x33] + s3;
    assert s3 == [0x34] + s4;
    assert s4 == [0x35] + s5;
    assert s5 == [0x36] + s6;
    assert s6 == [0x37] + s7;
    assert s7 == [0x38] + s8;
    assert s8 == [0x39] + s9;
    Byte1(s1);
    Byte2(s2);
    Byte3(s3);
    Byte4(s4);
    Byte5(s5);
    Byte6(s6);
    Byte7(s7);
    Byte8(s8);
    Byte9(s9);
    RegisterNone(0x340bc6d9);
  }

  lemma NothingChecks()
    ensures Crc(0, []) == 0
  {
  }

  /** A zero byte in front of any data changes the checksum: the register does not
      start at zero. */
  lemma LeadingZeroIsSeen(data: seq<bv8>)
    ensures Crc(0, [0] + data) != Crc(0, data)
  {
    assert Not(0) == 0xffffffff;
    hide Register, Not, Serial, MessageBits;
    TakesByte(0xffffffff, 0, 0xffffffff, 0x92477cdf, 0xa49b3d4f, 0xbff51d87, 0xb2420de3,
              0xb49985d1, 0xb7f441c8, 0x5bfa20e4, 0x2dfd1072, data);
    var s: bv32, t: bv32 := 0xffffffff, 0x2dfd1072;
    RegisterIsSerial(s, data);
    RegisterIsSerial(t, data);
    if Serial(s, MessageBits(data)) == Serial(t, MessageBits(data)) {
      SerialInjective(s, t, MessageBits(data));
    }
    NotNot(Register(s, data));
    NotNot(Register(t, data));
  }
}
