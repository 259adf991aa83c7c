/** UTF-8 as a test on bytes, and as the encoding of scalar values it stands for. */
module Utf8 {
  import opened Bits

  // ----- The test -----

  predicate IsTail(b: Byte) {
    0x80 <= b <= 0xbf
  }

  /** The length of the character a byte string begins with, or zero if it begins with
      none (table 3-7 of the Unicode standard). */
  function CharLength(s: seq<Byte>): (n: nat)
    ensures n <= |s|
  {
    if s == [] then 0
    else if s[0] < 0x80 then 1
    else if |s| >= 2 && 0xc2 <= s[0] <= 0xdf && IsTail(s[1]) then 2
    else if |s| >= 3 && 0xe0 <= s[0] <= 0xef && IsTail(s[1]) && IsTail(s[2])
            && (s[0] == 0xe0 ==> s[1] >= 0xa0) && (s[0] == 0xed ==> s[1] <= 0x9f) then 3
    else if |s| >= 4 && 0xf0 <= s[0] <= 0xf4 && IsTail(s[1]) && IsTail(s[2]) && IsTail(s[3])
            && (s[0] == 0xf0 ==> s[1] >= 0x90) && (s[0] == 0xf4 ==> s[1] <= 0x8f) then 4
    else 0
  }

  predicate IsUtf8(s: seq<Byte>) {
    s == [] || (CharLength(s) > 0 && IsUtf8(s[CharLength(s)..]))
  }

  // ----- The encoding -----

  /** The code points that are not surrogates. */
  predicate IsScalar(c: nat) {
    c <= 0xd7ff || 0xe000 <= c <= 0x10ffff
  }

  /** A scalar value in seven bits, or five, four or three with six in each byte after. */
  function Encoded(c: nat): (s: seq<Byte>)
    requires IsScalar(c)
    ensures 1 <= |s| <= 4
  {
    if c < 0x80 then [c]
    else if c < 0x800 then [0xc0 + c / 64, 0x80 + c % 64]
    else if c < 0x1_0000 then [0xe0 + c / 4096, 0x80 + c / 64 % 64, 0x80 + c % 64]
    else [0xf0 + c / 262144, 0x80 + c / 4096 % 64, 0x80 + c / 64 % 64, 0x80 + c % 64]
  }

  predicate AllScalars(cs: seq<nat>) {
    forall i :: 0 <= i < |cs| ==> IsScalar(cs[i])
  }

  function EncodedAll(cs: seq<nat>): seq<Byte>
    requires AllScalars(cs)
  {
    if cs == [] then [] else Encoded(cs[0]) + EncodedAll(cs[1..])
  }

  /** The bytes are the encoding of some scalar values. */
  ghost predicate IsText(s: seq<Byte>) {
    exists cs :: AllScalars(cs) && EncodedAll(cs) == s
  }

  // ----- One is the other -----

  lemma SixBits(c: nat)
    ensures c == 4096 * (c / 4096) + 64 * (c / 64 % 64) + c % 64
    ensures c / 64 == 64 * (c / 4096) + c / 64 % 64
  {
    assert c / 64 / 64 == c / 4096;
  }

  lemma EighteenBits(c: nat)
    ensures c == 262144 * (c / 262144) + 4096 * (c / 4096 % 64) + 64 * (c / 64 % 64) + c % 64
  {
    SixBits(c);
    assert c / 4096 / 64 == c / 262144;
  }

  /** A character's encoding is the first character of what it begins. */
  lemma EncodedIsFirst(c: nat, rest: seq<Byte>)
    requires IsScalar(c)
    ensures CharLength(Encoded(c) + rest) == |Encoded(c)|
  {
    if c >= 0x1_0000 {
      EighteenBits(c);
    } else if c >= 0x800 {
      SixBits(c);
    }
  }

  /** Six bits more. */
  function SixMore(high: int, low: int): int {
    64 * high + low
  }

  /** The scalar value of a string's first character. */
  function FirstScalar(s: seq<Byte>): (c: int)
    requires CharLength(s) > 0
  {
    match CharLength(s)
    case 1 => s[0]
    case 2 => SixMore(s[0] - 0xc0, s[1] - 0x80)
    case 3 => SixMore(SixMore(s[0] - 0xe0, s[1] - 0x80), s[2] - 0x80)
    case _ => SixMore(SixMore(SixMore(s[0] - 0xf0, s[1] - 0x80), s[2] - 0x80), s[3] - 0x80)
  }

  lemma SixApart(high: nat, low: nat)
    requires low < 64
    ensures SixMore(high, low) / 64 == high && SixMore(high, low) % 64 == low
  {
  }

  lemma TwoBytes(a: int, b: int)
    requires 2 <= a < 32 && 0 <= b < 64
    ensures var c := SixMore(a, b);
            c >= 0 && IsScalar(c) && Encoded(c) == [0xc0 + a, 0x80 + b]
  {
    SixApart(a, b);
  }

  lemma ThreeBytes(a: int, b: int, d: int)
    requires 0 <= a < 16 && 0 <= b < 64 && 0 <= d < 64 && (a == 0 ==> b >= 32) && (a == 13 ==> b < 32)
    ensures var c := SixMore(SixMore(a, b), d);
            c >= 0 && IsScalar(c) && Encoded(c) == [0xe0 + a, 0x80 + b, 0x80 + d]
  {
    SixApart(a, b);
    SixApart(SixMore(a, b), d);
    assert SixMore(SixMore(a, b), d) / 4096 == a;
  }

  lemma FourBytes(a: int, b: int, d: int, e: int)
    requires 0 <= a <= 4 && 0 <= b < 64 && 0 <= d < 64 && 0 <= e < 64 && (a == 0 ==> b >= 16) && (a == 4 ==> b < 16)
    ensures var c := SixMore(SixMore(SixMore(a, b), d), e);
            c >= 0 && IsScalar(c) && Encoded(c) == [0xf0 + a, 0x80 + b, 0x80 + d, 0x80 + e]
  {
    SixApart(a, b);
    SixApart(SixMore(a, b), d);
    SixApart(SixMore(SixMore(a, b), d), e);
    var c := SixMore(SixMore(SixMore(a, b), d), e);
    assert c / 4096 == SixMore(a, b) && c / 262144 == a;
  }

  lemma FirstIsEncoded(s: seq<Byte>)
    requires CharLength(s) > 0
    ensures FirstScalar(s) >= 0 && IsScalar(FirstScalar(s)) && Encoded(FirstScalar(s)) == s[..CharLength(s)]
  {
    hide Encoded, SixMore;
    if CharLength(s) == 1 {
      OneByte(s[0]);
    } else if CharLength(s) == 2 {
      TwoBytes(s[0] - 0xc0, s[1] - 0x80);
    } else if CharLength(s) == 3 {
      ThreeBytes(s[0] - 0xe0, s[1] - 0x80, s[2] - 0x80);
    } else {
      FourBytes(s[0] - 0xf0, s[1] - 0x80, s[2] - 0x80, s[3] - 0x80);
    }
  }

  lemma OneByte(b: Byte)
    requires b < 0x80
    ensures IsScalar(b) && Encoded(b) == [b]
  {
  }

  /** What follows one character says which it was. */
  lemma OneDecoding(c: nat, d: nat, r: seq<Byte>, t: seq<Byte>)
    requires IsScalar(c) && IsScalar(d) && Encoded(c) + r == Encoded(d) + t
    ensures c == d && r == t
  {
    hide CharLength;
    EncodedIsFirst(c, r);
    EncodedIsFirst(d, t);
    var n := |Encoded(c)|;
    assert Encoded(c) == (Encoded(c) + r)[..n] && Encoded(d) == (Encoded(d) + t)[..n];
    assert r == (Encoded(c) + r)[n..] && t == (Encoded(d) + t)[n..];
    SixBits(c);
    SixBits(d);
    EighteenBits(c);
    EighteenBits(d);
  }

  /** No bytes are the encoding of two different texts. */
  lemma {:induction false} TextsAreUnambiguous(cs: seq<nat>, ds: seq<nat>)
    requires AllScalars(cs) && AllScalars(ds) && EncodedAll(cs) == EncodedAll(ds)
    ensures cs == ds
  {
    hide Encoded, IsScalar;
    if cs != [] && ds != [] {
      OneDecoding(cs[0], ds[0], EncodedAll(cs[1..]), EncodedAll(ds[1..]));
      TextsAreUnambiguous(cs[1..], ds[1..]);
      assert cs == [cs[0]] + cs[1..] && ds == [ds[0]] + ds[1..];
    }
  }

  lemma {:induction false} EncodedIsUtf8(cs: seq<nat>)
    requires AllScalars(cs)
    ensures IsUtf8(EncodedAll(cs))
  {
    hide Encoded, IsScalar, CharLength;
    if cs != [] {
      var c, rest := Encoded(cs[0]), EncodedAll(cs[1..]);
      EncodedIsFirst(cs[0], rest);
      EncodedIsUtf8(cs[1..]);
      assert (c + rest)[|c|..] == rest;
    }
  }

  lemma {:induction false} Utf8IsEncoded(s: seq<Byte>) returns (cs: seq<nat>)
    requires IsUtf8(s)
    ensures AllScalars(cs) && EncodedAll(cs) == s
    decreases |s|
  {
    hide Encoded, IsScalar, CharLength;
    if s == [] {
      cs := [];
    } else {
      var n := CharLength(s);
      FirstIsEncoded(s);
      var rest := Utf8IsEncoded(s[n..]);
      cs := [FirstScalar(s)] + rest;
      assert cs[1..] == rest && s == s[..n] + s[n..];
    }
  }

  /** The test passes exactly the bytes that are the encoding of scalar values. */
  lemma IsUtf8Exactly(s: seq<Byte>)
    ensures IsUtf8(s) <==> IsText(s)
  {
    hide IsUtf8, EncodedAll, AllScalars;
    if IsUtf8(s) {
      var cs := Utf8IsEncoded(s);
    }
    if cs :| AllScalars(cs) && EncodedAll(cs) == s {
      EncodedIsUtf8(cs);
    }
  }
}
