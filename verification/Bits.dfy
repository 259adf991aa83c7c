/** Bits and bytes as integers, and the two bit orders DEFLATE mixes: plain
    integers travel least significant bit first, Huffman codes most significant
    bit first. Values and sequences of bits go back and forth without loss, and a
    byte stream is the sequence of its bytes' bits. */
module Bits {
  type Bit = b: int | 0 <= b < 2
  type Byte = b: int | 0 <= b < 256

  function Pow2(n: nat): (p: nat)
    ensures p >= 1
  {
    if n == 0 then 1 else 2 * Pow2(n - 1)
  }

  /** The low `n` bits of `v`, least significant first. */
  function LsbBits(v: nat, n: nat): (s: seq<Bit>)
    ensures |s| == n
  {
    if n == 0 then [] else [v % 2] + LsbBits(v / 2, n - 1)
  }

  /** The integer whose bits, least significant first, are `s`. */
  function LsbValue(s: seq<Bit>): nat {
    if s == [] then 0 else s[0] + 2 * LsbValue(s[1..])
  }

  /** The low `n` bits of `v`, most significant first. */
  function MsbBits(v: nat, n: nat): (s: seq<Bit>)
    ensures |s| == n
  {
    if n == 0 then [] else MsbBits(v / 2, n - 1) + [v % 2]
  }

  /** The integer whose bits, most significant first, are `s`. */
  function MsbValue(s: seq<Bit>): nat {
    if s == [] then 0 else 2 * MsbValue(s[..|s| - 1]) + s[|s| - 1]
  }

  /** A byte stream as the bits a DEFLATE decoder sees. */
  function StreamBits(bytes: seq<Byte>): (s: seq<Bit>)
    ensures |s| == 8 * |bytes|
  {
    if bytes == [] then [] else LsbBits(bytes[0], 8) + StreamBits(bytes[1..])
  }

  lemma {:induction false} LsbValueBound(s: seq<Bit>)
    ensures LsbValue(s) < Pow2(|s|)
  {
    if s != [] {
      LsbValueBound(s[1..]);
    }
  }

  lemma {:induction false} LsbBitsOfValue(s: seq<Bit>)
    ensures LsbBits(LsbValue(s), |s|) == s
  {
    if s != [] {
      LsbBitsOfValue(s[1..]);
      var v := LsbValue(s);
      assert v % 2 == s[0] && v / 2 == LsbValue(s[1..]);
    }
  }

  lemma {:induction false} LsbValueOfBits(v: nat, n: nat)
    requires v < Pow2(n)
    ensures LsbValue(LsbBits(v, n)) == v
  {
    if n != 0 {
      LsbValueOfBits(v / 2, n - 1);
      assert LsbBits(v, n)[1..] == LsbBits(v / 2, n - 1);
    }
  }

  lemma {:induction false} LsbValueSplit(a: seq<Bit>, b: seq<Bit>)
    ensures LsbValue(a + b) == LsbValue(a) + Pow2(|a|) * LsbValue(b)
  {
    if a == [] {
      assert a + b == b;
    } else {
      assert (a + b)[1..] == a[1..] + b;
      LsbValueSplit(a[1..], b);
      TwiceProduct(Pow2(|a| - 1), LsbValue(b));
    }
  }

  lemma LsbValueNext(s: seq<Bit>, n: nat)
    requires n < |s|
    ensures LsbValue(s[..n + 1]) == LsbValue(s[..n]) + s[n] * Pow2(n)
  {
    var last := [s[n]];
    assert s[..n + 1] == s[..n] + last;
    LsbValueSplit(s[..n], last);
    assert LsbValue(last) == s[n] by { assert last[1..] == []; }
  }

  lemma TwiceProduct(x: int, y: int)
    ensures (2 * x) * y == 2 * (x * y)
  {
  }

  /** Bit `i` is what a right shift by `i` leaves in the low place. */
  lemma {:induction false} LsbBitAt(v: nat, n: nat, i: nat)
    requires i < n
    ensures LsbBits(v, n)[i] == (v / Pow2(i)) % 2
  {
    if i == 0 {
      assert v / 1 == v;
    } else {
      LsbBitAt(v / 2, n - 1, i - 1);
      DivDiv(v, Pow2(i - 1));
    }
  }

  lemma DivDiv(v: nat, k: nat)
    requires k > 0
    ensures (v / 2) / k == v / (2 * k)
  {
    var q, r := v / (2 * k), v % (2 * k);
    assert v == 2 * (k * q) + r;
    assert v / 2 == k * q + r / 2;
    assert r / 2 < k;
    DivUnique(v / 2, k, q, r / 2);
  }

  lemma DivUnique(v: int, k: int, q: int, r: int)
    requires k > 0 && 0 <= r < k && v == k * q + r
    ensures v / k == q && v % k == r
  {
    var gap := v / k - q;
    assert k * (v / k) == k * q + k * gap by { Distribute(k, q, gap); }
    assert -k < k * gap < k;
    if gap >= 1 {
      MulAtLeast(k, gap);
    } else if gap <= -1 {
      MulAtLeast(k, -gap);
    }
  }

  lemma Distribute(k: int, x: int, y: int)
    ensures k * (x + y) == k * x + k * y
  {
  }

  lemma MulAtLeast(k: int, n: int)
    requires k > 0 && n >= 1
    ensures k * n >= k && k * -n <= -k
  {
  }

  lemma {:induction false} LsbBitsExtend(v: nat, n: nat)
    ensures LsbBits(v, n + 1) == LsbBits(v, n) + [(v / Pow2(n)) % 2]
  {
    if n == 0 {
      assert v / 1 == v;
      assert LsbBits(v / 2, 0) == [];
    } else {
      LsbBitsExtend(v / 2, n - 1);
      DivDiv(v, Pow2(n - 1));
    }
  }

  /** Adding a bit above the held ones appends it. */
  lemma {:induction false} LsbBitsPlaced(v: nat, n: nat, b: Bit)
    requires v < Pow2(n)
    ensures v + b * Pow2(n) < Pow2(n + 1)
    ensures LsbBits(v + b * Pow2(n), n + 1) == LsbBits(v, n) + [b]
  {
    var s := LsbBits(v, n);
    LsbValueOfBits(v, n);
    LsbValueSplit(s, [b]);
    assert LsbValue([b]) == b by { assert [b][1..] == []; }
    assert Pow2(n) * b == b * Pow2(n);
    LsbBitsOfValue(s + [b]);
    LsbValueBound(s + [b]);
  }

  lemma {:induction false} MsbValueBound(s: seq<Bit>)
    ensures MsbValue(s) < Pow2(|s|)
  {
    if s != [] {
      MsbValueBound(s[..|s| - 1]);
    }
  }

  lemma {:induction false} MsbBitsOfValue(s: seq<Bit>)
    ensures MsbBits(MsbValue(s), |s|) == s
  {
    if s != [] {
      var front := s[..|s| - 1];
      MsbBitsOfValue(front);
      var v := MsbValue(s);
      assert v / 2 == MsbValue(front) && v % 2 == s[|s| - 1];
    }
  }

  lemma {:induction false} MsbValueOfBits(v: nat, n: nat)
    requires v < Pow2(n)
    ensures MsbValue(MsbBits(v, n)) == v
  {
    if n != 0 {
      MsbValueOfBits(v / 2, n - 1);
      assert MsbBits(v, n)[..n - 1] == MsbBits(v / 2, n - 1);
    }
  }

  lemma {:induction false} MsbBitAt(v: nat, n: nat, i: nat)
    requires i < n
    ensures MsbBits(v, n)[i] == (v / Pow2(n - 1 - i)) % 2
  {
    if i == n - 1 {
      assert v / 1 == v;
    } else {
      MsbBitAt(v / 2, n - 1, i);
      DivDiv(v, Pow2(n - 2 - i));
    }
  }

  /** Dropping the low bits of a number drops the tail of its code. */
  lemma {:induction false} MsbPrefix(s: seq<Bit>, k: nat)
    requires k <= |s|
    ensures MsbValue(s) / Pow2(|s| - k) == MsbValue(s[..k])
  {
    if k == |s| {
      assert s[..k] == s;
    } else {
      var front := s[..|s| - 1];
      MsbPrefix(front, k);
      assert front[..k] == s[..k];
      var v := MsbValue(s);
      assert v / 2 == MsbValue(front);
      DivDiv(v, Pow2(|front| - k));
    }
  }

  lemma ByteOfBits(b: Byte)
    ensures LsbValue(LsbBits(b, 8)) == b
  {
    Pow2Of8();
    LsbValueOfBits(b, 8);
  }

  lemma SmallPowers()
    ensures Pow2(0) == 1 && Pow2(1) == 2 && Pow2(2) == 4 && Pow2(3) == 8
    ensures Pow2(4) == 16 && Pow2(5) == 32 && Pow2(6) == 64 && Pow2(7) == 128
  {
    assert Pow2(3) == 8;
    assert Pow2(5) == 32;
  }

  lemma Pow2Of8()
    ensures Pow2(8) == 256
  {
    SmallPowers();
  }

  lemma Pow2Of16()
    ensures Pow2(16) == 0x1_0000
  {
    Pow2Of8();
    assert Pow2(12) == 16 * Pow2(8);
  }

  lemma {:induction false} Pow2Add(m: nat, n: nat)
    ensures Pow2(m + n) == Pow2(m) * Pow2(n)
    decreases m
  {
    if m != 0 {
      Pow2Add(m - 1, n);
      TwiceProduct(Pow2(m - 1), Pow2(n));
    }
  }

  lemma {:induction false} StreamBitsConcat(a: seq<Byte>, b: seq<Byte>)
    ensures StreamBits(a + b) == StreamBits(a) + StreamBits(b)
  {
    if a == [] {
      assert a + b == b;
    } else {
      assert (a + b)[1..] == a[1..] + b;
      StreamBitsConcat(a[1..], b);
    }
  }

  /** Equal bits, equal bytes. */
  lemma {:induction false} StreamBitsInjective(a: seq<Byte>, b: seq<Byte>)
    requires StreamBits(a) == StreamBits(b)
    ensures a == b
  {
    assert |a| == |b|;
    if a != [] {
      assert LsbBits(a[0], 8) == StreamBits(a)[..8] == StreamBits(b)[..8] == LsbBits(b[0], 8);
      ByteOfBits(a[0]);
      ByteOfBits(b[0]);
      assert StreamBits(a[1..]) == StreamBits(a)[8..] == StreamBits(b)[8..] == StreamBits(b[1..]);
      StreamBitsInjective(a[1..], b[1..]);
    }
  }

  /** Placing a bit above a 32-bit accumulator's held bits: or is addition
      there, which is why the models below write it as addition. */
  lemma OrOfFreshBitIsAddition(held: bv32, bit: bv32, at: bv32)
    requires at < 32 && bit <= 1 && (held >> at) == 0
    ensures held | (bit << at) == held + (bit << at)
  {
  }

  // Concatenation is associative; the proofs below regroup long ones by name.

  lemma Regroup2<T>(a: seq<T>, b: seq<T>, r: seq<T>)
    ensures a + (b + r) == (a + b) + r
  {
  }

  lemma Regroup3<T>(a: seq<T>, b: seq<T>, c: seq<T>, r: seq<T>)
    ensures a + (b + (c + r)) == ((a + b) + c) + r
  {
    Regroup2(a, b, c + r);
    Regroup2(a + b, c, r);
  }

  lemma Regroup4<T>(a: seq<T>, b: seq<T>, c: seq<T>, d: seq<T>, r: seq<T>)
    ensures a + (b + (c + (d + r))) == (((a + b) + c) + d) + r
  {
    Regroup2(a, b, c + (d + r));
    Regroup3(a + b, c, d, r);
  }

  lemma Regroup5<T>(a: seq<T>, b: seq<T>, c: seq<T>, d: seq<T>, e: seq<T>, r: seq<T>)
    ensures a + (b + (c + (d + (e + r)))) == ((((a + b) + c) + d) + e) + r
  {
    Regroup2(a, b, c + (d + (e + r)));
    Regroup4(a + b, c, d, e, r);
  }
}
