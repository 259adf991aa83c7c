/** Sixty-four-bit words as integers: exclusive or, shifts, rotations and
    wrapping multiplication, with the laws that make some of them invertible.
    Exclusive or goes bit by bit from the lowest, a shift is a quotient or a product
    by a power of two, and a multiplication is undone by the inverse of its
    multiplier modulo 2^64. */
module U64 {
  import opened Bits

  const MODULUS: int := 0x1_0000_0000_0000_0000

  type Word = w: int | 0 <= w < 0x1_0000_0000_0000_0000

  // ----- Exclusive or -----

  function XorNat(a: nat, b: nat): nat
    decreases a + b
  {
    if a == 0 && b == 0 then 0 else (a + b) % 2 + 2 * XorNat(a / 2, b / 2)
  }

  lemma {:induction false} XorComm(a: nat, b: nat)
    ensures XorNat(a, b) == XorNat(b, a)
    decreases a + b
  {
    if a != 0 || b != 0 {
      XorComm(a / 2, b / 2);
    }
  }

  lemma {:induction false} XorZero(a: nat)
    ensures XorNat(a, 0) == a && XorNat(0, a) == a
  {
    if a != 0 {
      XorZero(a / 2);
    }
  }

  lemma {:induction false} XorSelf(a: nat)
    ensures XorNat(a, a) == 0
  {
    if a != 0 {
      XorSelf(a / 2);
    }
  }

  lemma XorParts(a: nat, b: nat)
    ensures XorNat(a, b) / 2 == XorNat(a / 2, b / 2)
    ensures XorNat(a, b) % 2 == (a + b) % 2
  {
  }

  /** A number is its half and its low bit. */
  lemma HalvesDecide(a: nat, b: nat)
    requires a / 2 == b / 2 && a % 2 == b % 2
    ensures a == b
  {
  }

  lemma {:induction false} XorAssoc(a: nat, b: nat, c: nat)
    ensures XorNat(XorNat(a, b), c) == XorNat(a, XorNat(b, c))
    decreases a + b + c
  {
    hide XorNat;
    if a != 0 || b != 0 || c != 0 {
      XorAssoc(a / 2, b / 2, c / 2);
      XorParts(a, b);
      XorParts(b, c);
      XorParts(XorNat(a, b), c);
      XorParts(a, XorNat(b, c));
      HalvesDecide(XorNat(XorNat(a, b), c), XorNat(a, XorNat(b, c)));
    } else {
      XorZero(0);
    }
  }

  lemma XorTwice(a: nat, b: nat)
    ensures XorNat(XorNat(a, b), b) == a
  {
    XorAssoc(a, b, b);
    XorSelf(b);
    XorZero(a);
  }

  lemma XorInjective(a: nat, b: nat, c: nat)
    ensures XorNat(a, c) == XorNat(b, c) ==> a == b
    ensures XorNat(c, a) == XorNat(c, b) ==> a == b
  {
    XorTwice(a, c);
    XorTwice(b, c);
    XorComm(c, a);
    XorComm(c, b);
  }

  lemma {:induction false} XorBound(a: nat, b: nat, n: nat)
    requires a < Pow2(n) && b < Pow2(n)
    ensures XorNat(a, b) < Pow2(n)
    decreases n
  {
    if n == 0 {
      XorZero(0);
    } else {
      XorBound(a / 2, b / 2, n - 1);
      XorParts(a, b);
    }
  }

  lemma ModulusIsPow2()
    ensures Pow2(64) == MODULUS
  {
    Pow2Add(32, 32);
    Pow2Add(16, 16);
    Pow2Of16();
  }

  function Xor(a: Word, b: Word): Word {
    ModulusIsPow2();
    XorBound(a, b, 64);
    XorNat(a, b)
  }

  // ----- Shifts -----

  /** What is left of a number without its low `k` bits. */
  function High(a: nat, k: nat): (r: nat)
    ensures r <= a
    decreases k
  {
    if k == 0 then a else High(a / 2, k - 1)
  }

  /** The low `k` bits of a number. */
  function Low(a: nat, k: nat): nat
    decreases k
  {
    if k == 0 then 0 else a % 2 + 2 * Low(a / 2, k - 1)
  }

  lemma {:induction false} HighAndLow(a: nat, k: nat)
    ensures a == Pow2(k) * High(a, k) + Low(a, k) && Low(a, k) < Pow2(k)
    decreases k
  {
    if k != 0 {
      HighAndLow(a / 2, k - 1);
      TwiceProduct(Pow2(k - 1), High(a / 2, k - 1));
    }
  }

  /** They are the quotient and the remainder by 2^k. */
  lemma HighIsQuotient(a: nat, k: nat)
    ensures High(a, k) == a / Pow2(k) && Low(a, k) == a % Pow2(k)
  {
    HighAndLow(a, k);
    DivUnique(a, Pow2(k), High(a, k), Low(a, k));
  }

  function Shr(a: Word, k: nat): Word {
    High(a, k)
  }

  /** A left shift drops what passes the top. */
  function Shl(a: Word, k: nat): Word {
    (a * Pow2(k)) % MODULUS
  }

  lemma {:induction false} XorHigh(a: nat, b: nat, k: nat)
    ensures High(XorNat(a, b), k) == XorNat(High(a, k), High(b, k))
    decreases k
  {
    hide XorNat;
    if k != 0 {
      XorHigh(a / 2, b / 2, k - 1);
      XorParts(a, b);
    }
  }

  lemma LowParts(a: nat, k: nat)
    requires k > 0
    ensures Low(a, k) / 2 == Low(a / 2, k - 1) && Low(a, k) % 2 == a % 2
  {
  }

  lemma SumParity(u: nat, v: nat, a: nat, b: nat)
    requires u % 2 == a % 2 && v % 2 == b % 2
    ensures (u + v) % 2 == (a + b) % 2
  {
  }

  lemma {:induction false} XorLow(a: nat, b: nat, k: nat)
    ensures Low(XorNat(a, b), k) == XorNat(Low(a, k), Low(b, k))
    decreases k
  {
    if k == 0 {
      XorZero(0);
    } else {
      hide XorNat, Low;
      XorLow(a / 2, b / 2, k - 1);
      XorParts(a, b);
      XorParts(Low(a, k), Low(b, k));
      LowParts(a, k);
      LowParts(b, k);
      LowParts(XorNat(a, b), k);
      SumParity(Low(a, k), Low(b, k), a, b);
      HalvesDecide(Low(XorNat(a, b), k), XorNat(Low(a, k), Low(b, k)));
    }
  }

  lemma {:induction false} HighHigh(a: nat, j: nat, k: nat)
    ensures High(High(a, j), k) == High(a, j + k)
    decreases j
  {
    if j != 0 {
      HighHigh(a / 2, j - 1, k);
    }
  }

  lemma {:induction false} XorTimes(a: nat, b: nat, k: nat)
    ensures XorNat(a * Pow2(k), b * Pow2(k)) == XorNat(a, b) * Pow2(k)
    decreases k
  {
    if k != 0 {
      var p := Pow2(k - 1);
      XorTimes(a, b, k - 1);
      TwiceOf(a, p);
      TwiceOf(b, p);
      TwiceOf(XorNat(a, b), p);
      XorOfDoubles(a * p, b * p);
    }
  }

  lemma TwiceOf(a: nat, p: nat)
    ensures a * (2 * p) == 2 * (a * p) && a * p >= 0
  {
  }

  lemma XorOfDoubles(x: nat, y: nat)
    ensures XorNat(2 * x, 2 * y) == 2 * XorNat(x, y)
  {
    hide XorNat;
    XorParts(2 * x, 2 * y);
    DoubleParts(x);
    DoubleParts(y);
    DoubleParts(x + y);
    DoubleParts(XorNat(x, y));
    HalvesDecide(XorNat(2 * x, 2 * y), 2 * XorNat(x, y));
  }

  lemma DoubleParts(x: nat)
    ensures (2 * x) / 2 == x && (2 * x) % 2 == 0
  {
  }

  lemma ShrLinear(a: Word, b: Word, k: nat)
    ensures Shr(Xor(a, b), k) == Xor(Shr(a, k), Shr(b, k))
  {
    hide XorNat;
    XorHigh(a, b, k);
  }

  lemma ShlLinear(a: Word, b: Word, k: nat)
    ensures Shl(Xor(a, b), k) == Xor(Shl(a, k), Shl(b, k))
  {
    hide XorNat, Low, High;
    XorTimes(a, b, k);
    ModulusIsPow2();
    TwiceOf(a, Pow2(k));
    TwiceOf(b, Pow2(k));
    XorLow(a * Pow2(k), b * Pow2(k), 64);
    HighIsQuotient(XorNat(a * Pow2(k), b * Pow2(k)), 64);
    HighIsQuotient(a * Pow2(k), 64);
    HighIsQuotient(b * Pow2(k), 64);
  }

  lemma ShrShr(a: Word, j: nat, k: nat)
    ensures Shr(Shr(a, j), k) == Shr(a, j + k)
  {
    HighHigh(a, j, k);
  }

  lemma MulAssoc(x: int, y: int, z: int)
    ensures x * (y * z) == (x * y) * z
  {
  }

  lemma ShlShl(a: Word, j: nat, k: nat)
    ensures Shl(Shl(a, j), k) == Shl(a, j + k)
  {
    Pow2Add(j, k);
    ModTimes(a * Pow2(j), Pow2(k), MODULUS);
    MulAssoc(a, Pow2(j), Pow2(k));
  }

  /** A factor may be reduced before multiplying. */
  lemma ModTimes(x: int, y: int, m: int)
    requires m > 0
    ensures ((x % m) * y) % m == (x * y) % m
  {
    var q, r := x / m, x % m;
    assert x == m * q + r;
    assert x * y == m * (q * y) + r * y by { ExpandProduct(m, q, r, y); }
    ModOfMultiple(m, q * y, r * y);
  }

  lemma ExpandProduct(m: int, q: int, r: int, y: int)
    ensures (m * q + r) * y == m * (q * y) + r * y
  {
    Distribute(y, m * q, r);
    MulAssoc(m, q, y);
  }

  lemma ModOfMultiple(m: int, n: int, v: int)
    requires m > 0
    ensures (m * n + v) % m == v % m
  {
    var q, r := v / m, v % m;
    assert v == m * q + r;
    Distribute(m, n, q);
    DivUnique(m * n + v, m, n + q, r);
  }

  lemma ShiftedOut(a: Word, k: nat)
    requires k >= 64
    ensures Shr(a, k) == 0 && Shl(a, k) == 0
  {
    Pow2Add(k - 64, 64);
    ModulusIsPow2();
    MulAtLeast(MODULUS, Pow2(k - 64));
    Commute(MODULUS, Pow2(k - 64));
    HighIsQuotient(a, k);
    DivUnique(a, Pow2(k), 0, a);
    MulAssoc(a, Pow2(k - 64), MODULUS);
    var n := a * Pow2(k - 64);
    ModOfMultiple(MODULUS, n, 0);
  }

  /** Exclusive or with a copy of itself shifted right loses nothing. */
  lemma {:induction false} XorShrInjective(a: Word, b: Word, k: nat)
    requires k >= 1 && Xor(a, Shr(a, k)) == Xor(b, Shr(b, k))
    ensures a == b
    decreases if k < 64 then 64 - k else 0
  {
    hide Xor, Shr;
    if k >= 64 {
      ShiftedOut(a, k);
      ShiftedOut(b, k);
      XorWordZero(a);
      XorWordZero(b);
    } else {
      ShrDoubles(a, k);
      ShrDoubles(b, k);
      XorShrInjective(a, b, k + k);
    }
  }

  lemma XorWordZero(a: Word)
    ensures Xor(a, 0) == a
  {
    XorZero(a);
  }

  lemma XorMiddle(a: Word, b: Word, c: Word)
    ensures Xor(Xor(a, b), Xor(b, c)) == Xor(a, c)
  {
    XorAssoc(a, b, XorNat(b, c));
    XorAssoc(b, b, c);
    XorSelf(b);
    XorZero(c);
  }

  lemma ShrDoubles(a: Word, k: nat)
    ensures var y := Xor(a, Shr(a, k)); Xor(y, Shr(y, k)) == Xor(a, Shr(a, k + k))
  {
    hide Xor, Shr;
    ShrLinear(a, Shr(a, k), k);
    ShrShr(a, k, k);
    XorMiddle(a, Shr(a, k), Shr(a, k + k));
  }

  lemma ShlDoubles(a: Word, k: nat)
    ensures var y := Xor(a, Shl(a, k)); Xor(y, Shl(y, k)) == Xor(a, Shl(a, k + k))
  {
    hide Xor, Shl;
    ShlLinear(a, Shl(a, k), k);
    ShlShl(a, k, k);
    XorMiddle(a, Shl(a, k), Shl(a, k + k));
  }

  /** And so with a copy shifted left. */
  lemma {:induction false} XorShlInjective(a: Word, b: Word, k: nat)
    requires k >= 1 && Xor(a, Shl(a, k)) == Xor(b, Shl(b, k))
    ensures a == b
    decreases if k < 64 then 64 - k else 0
  {
    hide Xor, Shl;
    if k >= 64 {
      ShiftedOut(a, k);
      ShiftedOut(b, k);
      XorWordZero(a);
      XorWordZero(b);
    } else {
      ShlDoubles(a, k);
      ShlDoubles(b, k);
      XorShlInjective(a, b, k + k);
    }
  }

  // ----- Rotation and multiplication -----

  /** The low bits move up and the high ones come in below them. */
  function RotateLeft(a: Word, k: nat): Word
    requires k < 64
  {
    RotateParts(a, k);
    Low(a, 64 - k) * Pow2(k) + High(a, 64 - k)
  }

  lemma RotateParts(a: Word, k: nat)
    requires k < 64
    ensures High(a, 64 - k) < Pow2(k)
    ensures 0 <= Low(a, 64 - k) * Pow2(k) + High(a, 64 - k) < MODULUS
  {
    hide Low, High;
    var low, high, p := Low(a, 64 - k), High(a, 64 - k), Pow2(64 - k);
    ModulusIsPow2();
    Pow2Add(64 - k, k);
    HighAndLow(a, 64 - k);
    if high >= Pow2(k) {
      Distribute(p, Pow2(k), high - Pow2(k));
      ProductSign(p, high - Pow2(k));
    }
    BelowProduct(Pow2(k), p, high, low);
    Commute(low, Pow2(k));
    Commute(p, Pow2(k));
  }

  lemma Commute(x: int, y: int)
    ensures x * y == y * x
  {
  }

  lemma ProductSign(x: int, y: int)
    requires x >= 0 && y >= 0
    ensures x * y >= 0
  {
  }

  lemma BelowProduct(x: nat, y: nat, r: nat, r': nat)
    requires r < x && r' < y
    ensures 0 <= x * r' + r < x * y && x * y > 0
  {
    assert x * (y - 1 - r') >= 0 by { ProductSign(x, y - 1 - r'); }
    Distribute(x, r', y - 1 - r');
    Distribute(x, y - 1, 1);
    ProductSign(x, r');
  }

  lemma RotateLeftInjective(a: Word, b: Word, k: nat)
    requires k < 64 && RotateLeft(a, k) == RotateLeft(b, k)
    ensures a == b
  {
    hide Low, High, Pow2;
    RotateParts(a, k);
    RotateParts(b, k);
    Commute(Low(a, 64 - k), Pow2(k));
    Commute(Low(b, 64 - k), Pow2(k));
    DivUnique(RotateLeft(a, k), Pow2(k), Low(a, 64 - k), High(a, 64 - k));
    DivUnique(RotateLeft(b, k), Pow2(k), Low(b, 64 - k), High(b, 64 - k));
    HighAndLow(a, 64 - k);
    HighAndLow(b, 64 - k);
  }

  /** A product that wraps at 64 bits. */
  function Mul(a: Word, c: Word): Word {
    (a * c) % MODULUS
  }

  /** A multiplication by a number with an inverse can be undone. */
  lemma MulInvertible(a: Word, c: Word, inverse: Word)
    requires (c * inverse) % MODULUS == 1
    ensures Mul(Mul(a, c), inverse) == a
  {
    ModTimes(a * c, inverse, MODULUS);
    MulAssoc(a, c, inverse);
    ModTimes(c * inverse, a, MODULUS);
    DivUnique(a, MODULUS, 0, a);
  }

  lemma MulInjective(a: Word, b: Word, c: Word, inverse: Word)
    requires (c * inverse) % MODULUS == 1 && Mul(a, c) == Mul(b, c)
    ensures a == b
  {
    MulInvertible(a, c, inverse);
    MulInvertible(b, c, inverse);
  }

  function Add(a: Word, b: Word): Word {
    (a + b) % MODULUS
  }

  lemma {:induction false} HighLowOfZero(k: nat)
    ensures High(0, k) == 0 && Low(0, k) == 0
    decreases k
  {
    if k != 0 {
      HighLowOfZero(k - 1);
    }
  }

  /** Zero stays zero under every one of these. */
  lemma ZeroStaysZero(k: nat, c: Word)
    requires k < 64
    ensures Xor(0, 0) == 0 && Shl(0, k) == 0 && RotateLeft(0, k) == 0 && Mul(0, c) == 0
  {
    hide Low, High, Pow2;
    XorZero(0);
    HighLowOfZero(64 - k);
  }
}
