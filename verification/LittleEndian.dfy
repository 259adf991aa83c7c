/** Fixed-width integers as bytes, lowest byte first: the form the allocator's links,
    the cache's fields and the digest's lengths all have. Numbers that fit their
    width and byte strings of that width stand for each other one to one, so what is
    written is what is read, and different numbers never look alike on the way. */
module LittleEndian {
  import opened Bits

  /** 256^n: how many values `n` bytes can hold. */
  function Span(n: nat): (p: nat)
    ensures p >= 1
  {
    if n == 0 then 1 else 256 * Span(n - 1)
  }

  function Encode(v: nat, n: nat): (s: seq<Byte>)
    ensures |s| == n
  {
    if n == 0 then [] else [v % 256] + Encode(v / 256, n - 1)
  }

  function Decode(s: seq<Byte>): nat {
    if s == [] then 0 else s[0] + 256 * Decode(s[1..])
  }

  lemma {:induction false} DecodeBound(s: seq<Byte>)
    ensures Decode(s) < Span(|s|)
  {
    if s != [] {
      DecodeBound(s[1..]);
    }
  }

  /** A value that fits comes back. */
  lemma {:induction false} DecodeOfEncode(v: nat, n: nat)
    requires v < Span(n)
    ensures Decode(Encode(v, n)) == v
  {
    if n > 0 {
      DecodeOfEncode(v / 256, n - 1);
      assert Encode(v, n)[1..] == Encode(v / 256, n - 1);
    }
  }

  /** Bytes are the encoding of their value. */
  lemma {:induction false} EncodeOfDecode(s: seq<Byte>)
    ensures Encode(Decode(s), |s|) == s
  {
    if s != [] {
      EncodeOfDecode(s[1..]);
      var v := Decode(s);
      assert v % 256 == s[0] && v / 256 == Decode(s[1..]);
    }
  }

  lemma Spans()
    ensures Span(4) == 0x1_0000_0000 && Span(8) == 0x1_0000_0000_0000_0000
  {
    assert Span(2) == 0x1_0000;
    assert Span(4) == 0x1_0000_0000;
    assert Span(6) == 0x1_0000_0000_0000;
  }
}
