/** A zlib stream another engine wrote, the header bit by bit, and known checksums: one of
    bytes whose sums both pass the modulus, and the one at the end of that stream. */
module KnownZlib {
  import opened Bits
  import opened InflateSpec
  import opened KnownStreams
  import opened Wrappers
  import opened Zlib

  /** A header is accepted exactly when the first byte's low four bits are the number
      8, the second's sixth bit is clear, and the two bytes as one number, the first
      highest, are a multiple of 31. */
  lemma HeaderExactly(input: seq<Byte>)
    ensures HeaderFault(input).Ok? <==>
            && |input| >= 2
            && LsbBits(input[0], 4) == [0, 0, 0, 1]
            && LsbBits(input[1], 8)[5] == 0
            && IsCheckMultiple(input[0], input[1])
  {
    hide LsbBits, IsCheckMultiple;
    if |input| >= 2 {
      LowNibble(input[0]);
      SixthBit(input[1]);
      CheckMultiple(input[0], input[1]);
    }
  }

  ghost predicate IsCheckMultiple(first: nat, second: nat) {
    exists k: nat :: 256 * first + second == 31 * k
  }

  lemma CheckMultiple(first: nat, second: nat)
    ensures IsCheckMultiple(first, second) <==> Wider(first, second) % 31 == 0
  {
    var x := 256 * first + second;
    assert x == 31 * (x / 31) + x % 31;
  }

  lemma SixthBit(b: Byte)
    ensures LsbBits(b, 8)[5] == b / 32 % 2
  {
    hide LsbBits;
    SmallPowers();
    LsbBitAt(b, 8, 5);
  }

  lemma LowNibble(b: Byte)
    ensures LsbBits(b, 4) == [0, 0, 0, 1] <==> b % 16 == 8
  {
    var s := LsbBits(b, 4);
    LsbBitsOfFour(b, s);
    assert s == [s[0], s[1], s[2], s[3]];
  }

  function Weighed(a: nat, b: nat, c: nat, d: nat): nat {
    a + 2 * b + 4 * c + 8 * d
  }

  lemma LsbBitsOfFour(b: Byte, s: seq<Bit>)
    requires s == LsbBits(b, 4)
    ensures b % 16 == Weighed(s[0], s[1], s[2], s[3])
  {
    hide LsbBits;
    SmallPowers();
    LsbBitAt(b, 4, 0);
    LsbBitAt(b, 4, 1);
    LsbBitAt(b, 4, 2);
    LsbBitAt(b, 4, 3);
    hide Pow2;
    BinaryOfNibble(b);
  }

  lemma BinaryOfNibble(b: nat)
    ensures b % 16 == b % 2 + 2 * (b / 2 % 2) + 4 * (b / 4 % 2) + 8 * (b / 8 % 2)
  {
    ModSixteen(b);
    ModEight(b / 2);
    ModFour(b / 4);
    assert b / 2 / 2 == b / 4 && b / 4 / 2 == b / 8;
  }

  lemma ModSixteen(b: nat)
    ensures b % 16 == b % 2 + 2 * (b / 2 % 8)
  {
  }

  lemma ModEight(b: nat)
    ensures b % 8 == b % 2 + 2 * (b / 2 % 4)
  {
  }

  lemma ModFour(b: nat)
    ensures b % 4 == b % 2 + 2 * (b / 2 % 2)
  {
  }

  // ----- The checksum of equal bytes -----

  function Equal(b: Byte, n: nat): (s: seq<Byte>)
    ensures |s| == n && forall i :: 0 <= i < n ==> s[i] == b
  {
    seq(n, _ => b)
  }

  lemma SumsOfOneMore(b: Byte, n: nat)
    requires n > 0
    ensures S1(Equal(b, n)) == S1(Equal(b, n - 1)) + b
    ensures S2(Equal(b, n)) == S2(Equal(b, n - 1)) + S1(Equal(b, n))
  {
    assert Equal(b, n)[..n - 1] == Equal(b, n - 1);
  }

  lemma OneMore(b: int, n: int)
    ensures b * n == b * (n - 1) + b
    ensures b * n * (n + 1) == b * (n - 1) * n + 2 * (b * n)
  {
    var p := b * (n - 1);
    assert b * n == p + b;
    assert p * n + 2 * (b * n) == (p + b) * n + b * n;
  }

  lemma {:induction false} SumsOfEqual(b: Byte, n: nat)
    ensures S1(Equal(b, n)) == 1 + b * n
    ensures 2 * S2(Equal(b, n)) == 2 * n + b * n * (n + 1)
  {
    if n > 0 {
      SumsOfEqual(b, n - 1);
      SumsOfOneMore(b, n);
      OneMore(b, n);
    }
  }

  /** Both sums of 300 bytes of 255 pass the modulus. */
  lemma AdlerWraps()
    ensures Adler(Equal(255, 300)) == 0xb90f_2ae4
  {
    SumsOfEqual(255, 300);
  }

  lemma AdlerOfThousand()
    ensures Adler(Zeroes(1000)) == 0x03e8_0001
  {
    SumsOfEqual(0, 1000);
    assert Zeroes(1000) == Equal(0, 1000);
  }

  /** The whole stream that engine wrote decompresses to a thousand zeroes. */
  lemma ThousandUnwraps()
    ensures Unwrapped([0x78, 0x9c] + ThousandBody() + [0x03, 0xe8, 0x00, 0x01]) == Ok(Zeroes(1000))
  {
    TailOfThousand();
    hide *;
    ThousandInflates();
    AdlerOfThousand();
    KnownUnwraps([0x78, 0x9c], ThousandBody(), [0x03, 0xe8, 0x00, 0x01], Zeroes(1000));
  }

  lemma TailOfThousand()
    ensures BigEndian(0x03e8_0001) == [0x03, 0xe8, 0x00, 0x01] && HeaderFault([0x78, 0x9c]).Ok?
  {
  }

  lemma KnownUnwraps(front: seq<Byte>, body: seq<Byte>, tail: seq<Byte>, data: seq<Byte>)
    requires |front| == 2 && HeaderFault(front).Ok? && Inflate(StreamBits(body)) == Ok(data)
    requires |tail| == 4 && tail == BigEndian(Adler(data))
    ensures Unwrapped(front + body + tail) == Ok(data)
  {
    hide *;
    CutShortExactly(front, body, tail, data);
    var after := body + tail;
    assert after[|after| - 4..] == tail;
    assert front + body + tail == front + after;
  }
}
