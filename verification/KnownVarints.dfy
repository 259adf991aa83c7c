/** The widths the format turns at, byte by byte: where one byte becomes two and two become
    three, the largest value of eight bytes, the smallest of nine and the largest of all. */
module KnownVarints {
  import opened Bits
  import opened Varint

  /** Two groups begin at 128 and three at 16384; the group that says another follows
      has its top bit set. */
  lemma ShortForms()
    ensures Encoded(0) == [0] && Encoded(127) == [0x7f]
    ensures Encoded(128) == [0x81, 0x00] && Encoded(16383) == [0xff, 0x7f]
    ensures Encoded(16384) == [0x81, 0x80, 0x00]
  {
    assert SevenBitLen(1) == 1 && SevenBitLen(128) == 2 && SevenBitLen(127) == 1 && SevenBitLen(16384) == 3;
    assert Continued(0, 0) == [] && Continued(1, 1) == [0x81] && Continued(127, 1) == [0xff];
    assert Continued(128, 2) == [0x81, 0x80];
  }

  function Ones(n: nat): (s: seq<Byte>)
    ensures |s| == n
  {
    seq(n, _ => 0xff)
  }

  lemma {:induction false} AllOnes(n: nat)
    ensures Continued(Power(n) - 1, n) == Ones(n)
  {
    if n > 0 {
      AllOnes(n - 1);
      assert (Power(n) - 1) / 128 == Power(n - 1) - 1 && (Power(n) - 1) % 128 == 127;
    }
  }

  lemma EightGroups(v: nat)
    requires Power(7) <= v < Power(8)
    ensures SevenBitLen(v) == 8
  {
    var n := SevenBitLen(v);
    hide Power;
    SevenBitLenIsLeast(v, 8);
    if n <= 7 {
      PowerMonotone(n, 7);
    }
  }

  /** The largest value of eight bytes: seven that say another follows and one that does
      not. */
  lemma LongestOfEight()
    ensures Encoded(0xff_ffff_ffff_ffff) == [0xff, 0xff, 0xff, 0xff, 0xff, 0xff, 0xff, 0x7f]
  {
    PowerOfEight();
    assert Power(8) == 128 * Power(7);
    AllOnes(7);
    EightGroups(0xff_ffff_ffff_ffff);
    hide Power, Continued, SevenBitLen;
    assert Ones(7) == [0xff, 0xff, 0xff, 0xff, 0xff, 0xff, 0xff];
  }

  /** The largest of all: nine bytes of ones. */
  lemma LongestOfAll()
    ensures Encoded(0xffff_ffff_ffff_ffff) == Ones(9)
  {
    PowerOfEight();
    AllOnes(8);
    hide Power, Continued, SevenBitLen;
    assert Ones(9) == Ones(8) + [0xff];
  }

  /** The smallest value of nine bytes: its low byte is written whole. */
  lemma NineBytes()
    ensures Encoded(0x100_0000_0000_0000) == [0x80, 0xc0, 0x80, 0x80, 0x80, 0x80, 0x80, 0x80, 0x00]
  {
    assert Continued(0x40, 2) == [0x80, 0xc0];
    assert Continued(0x10_0000, 4) == Continued(0x40, 2) + [0x80, 0x80];
    assert Continued(0x4_0000_0000, 6) == Continued(0x10_0000, 4) + [0x80, 0x80];
    assert Continued(0x1_0000_0000_0000, 8) == Continued(0x4_0000_0000, 6) + [0x80, 0x80];
  }
}
