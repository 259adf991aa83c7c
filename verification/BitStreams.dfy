/** The bit reader and bit writer of the DEFLATE codec, proved against plain
    sequences of bits: a reader is the bits it has not yet read, a writer is the
    bits it has written. A parse gives a value and the bits it left, or the fault
    that stopped it, and the reader's methods follow one. */
module BitStreams {
  import opened Bits
  import opened Wrappers

  /** Why a stream is refused, one name per message of the decoder. */
  datatype Fault =
    | EndsInsideCode
    | EndsInsideStored
    | NoSuchBlockType
    | StoredLengthContradicted
    | NoSuchLengthCode
    | NoSuchDistanceCode
    | ReachesBeforeOutput
    | RepeatOfNothing
    | CodeTooLong
    | ZlibTooShort
    | ZlibNotDeflate
    | ZlibHeaderCheck
    | ZlibDictionary
    | ZlibChecksum

  /** What reading from a sequence of bits gives: a value and the bits left. */
  datatype Parse<+T> = Done(value: T, rest: seq<Bit>) | Fail(fault: Fault) {
    predicate IsFailure() {
      Fail?
    }

    function PropagateFailure<U>(): Parse<U>
      requires Fail?
    {
      Fail(fault)
    }

    function Extract(): (T, seq<Bit>)
      requires Done?
    {
      (value, rest)
    }
  }

  /** Reads `n` bits as a little-endian integer. */
  function Take(s: seq<Bit>, n: nat): (p: Parse<nat>)
    ensures p.Done? ==> |p.rest| + n == |s|
  {
    if |s| < n then Fail(EndsInsideCode) else Done(LsbValue(s[..n]), s[n..])
  }

  /** Drops the bits before the next byte boundary: a stream holds whole bytes,
      so the boundary is where the number of bits left is a multiple of eight. */
  function Aligned(s: seq<Bit>): (r: seq<Bit>)
    ensures |r| % 8 == 0 && |r| <= |s| < |r| + 8
  {
    s[|s| % 8..]
  }

  /** Reads one byte off a boundary. */
  function TakeByte(s: seq<Bit>): (p: Parse<Byte>)
    ensures p.Done? ==> |p.rest| + 8 == |s|
  {
    if |s| < 8 then Fail(EndsInsideStored)
    else
      LsbValueBound(s[..8]);
      Pow2Of8();
      Done(LsbValue(s[..8]), s[8..])
  }

  /** Reads sixteen bits off a boundary, as two bytes. */
  function TakeU16(s: seq<Bit>): (p: Parse<nat>)
    ensures p.Done? ==> |p.rest| + 16 == |s| && p.value < 0x1_0000
  {
    var (low, s1) :- TakeByte(s);
    var (high, s2) :- TakeByte(s1);
    Done(low + 256 * high, s2)
  }

  /** Taking `n` bits gives `v` exactly when the stream begins with the `n` bits
      of `v`. */
  lemma TakeExact(s: seq<Bit>, n: nat, v: nat, rest: seq<Bit>)
    ensures Take(s, n) == Done(v, rest) <==> v < Pow2(n) && s == LsbBits(v, n) + rest
  {
    if n <= |s| {
      LsbValueBound(s[..n]);
      LsbBitsOfValue(s[..n]);
      assert s == s[..n] + s[n..];
    }
    if v < Pow2(n) && s == LsbBits(v, n) + rest {
      LsbValueOfBits(v, n);
      assert s[..n] == LsbBits(v, n) && s[n..] == rest;
    }
  }

  lemma TakeU16IsTake(s: seq<Bit>)
    requires |s| >= 16
    ensures TakeU16(s) == Take(s, 16)
  {
    assert s[..16] == s[..8] + s[8..][..8];
    LsbValueSplit(s[..8], s[8..][..8]);
    Pow2Of8();
    assert s[8..][8..] == s[16..];
  }

  /** A least-significant-bit-first reader over a byte stream. */
  class BitReader {
    const bytes: seq<Byte>
    var at: nat
    var bit: nat

    constructor (bytes: seq<Byte>)
      ensures Valid() && Rest() == StreamBits(bytes)
    {
      this.bytes := bytes;
      at, bit := 0, 0;
    }

    ghost predicate Valid()
      reads this
    {
      at <= |bytes| && bit < 8 && (bit > 0 ==> at < |bytes|)
    }

    /** The bits not yet read. */
    ghost function Rest(): (s: seq<Bit>)
      requires Valid()
      reads this
      ensures |s| == 8 * (|bytes| - at) - bit
    {
      StreamBits(bytes[at..])[bit..]
    }

    /** The next bit of the stream is bit `bit` of byte `at`, shifted down. */
    lemma NextBit()
      requires Valid() && at < |bytes|
      ensures Rest()[0] == (bytes[at] / Pow2(bit)) % 2
      ensures bit == 7 ==> StreamBits(bytes[at + 1..]) == Rest()[1..]
      ensures bit < 7 ==> StreamBits(bytes[at..])[bit + 1..] == Rest()[1..]
    {
      assert StreamBits(bytes[at..]) == LsbBits(bytes[at], 8) + StreamBits(bytes[at..][1..]);
      assert bytes[at..][1..] == bytes[at + 1..];
      LsbBitAt(bytes[at], 8, bit);
    }

    /** Reads one bit, least significant first within each byte. */
    method ReadBit() returns (r: Result<Bit, Fault>)
      requires Valid()
      modifies this
      ensures Valid()
      ensures old(Rest()) == [] ==> r == Err(EndsInsideCode) && Rest() == []
      ensures old(Rest()) != [] ==> r == Ok(old(Rest())[0]) && Rest() == old(Rest())[1..]
    {
      if at >= |bytes| {
        return Err(EndsInsideCode);
      }
      NextBit();
      var value := (bytes[at] / Pow2(bit)) % 2;
      bit := bit + 1;
      if bit == 8 {
        bit := 0;
        at := at + 1;
      }
      return Ok(value);
    }

    /** Reads several bits as a little-endian integer. */
    method ReadBits(count: nat) returns (r: Result<nat, Fault>)
      requires Valid()
      modifies this
      ensures Valid()
      ensures var p := Take(old(Rest()), count);
              if p.Done? then r == Ok(p.value) && Rest() == p.rest else r == Err(p.fault)
    {
      var value := 0;
      ghost var s := Rest();
      for step := 0 to count
        invariant Valid()
        invariant step <= |s| && Rest() == s[step..]
        invariant value == LsbValue(s[..step])
      {
        var b :- ReadBit();
        LsbValueNext(s, step);
        value := value + b * Pow2(step);
      }
      return Ok(value);
    }

    /** Moves to the next byte boundary. */
    method Align()
      requires Valid()
      modifies this
      ensures Valid() && bit == 0
      ensures Rest() == Aligned(old(Rest()))
    {
      if bit != 0 {
        assert StreamBits(bytes[at..]) == LsbBits(bytes[at], 8) + StreamBits(bytes[at..][1..]);
        assert bytes[at..][1..] == bytes[at + 1..];
        bit := 0;
        at := at + 1;
      }
    }

    /** Reads one whole byte, on a boundary. */
    method ReadByte() returns (r: Result<Byte, Fault>)
      requires Valid() && bit == 0
      modifies this
      ensures Valid() && bit == 0
      ensures var p := TakeByte(old(Rest()));
              if p.Done? then r == Ok(p.value) && Rest() == p.rest
              else r == Err(p.fault) && Rest() == old(Rest())
    {
      if at >= |bytes| {
        return Err(EndsInsideStored);
      }
      ByteOfBits(bytes[at]);
      assert StreamBits(bytes[at..]) == LsbBits(bytes[at], 8) + StreamBits(bytes[at..][1..]);
      assert bytes[at..][1..] == bytes[at + 1..];
      assert Rest()[..8] == LsbBits(bytes[at], 8);
      r := Ok(bytes[at]);
      at := at + 1;
    }

    /** Reads a little-endian sixteen-bit integer on a boundary. */
    method ReadU16() returns (r: Result<nat, Fault>)
      requires Valid() && bit == 0
      modifies this
      ensures Valid() && bit == 0
      ensures var p := TakeU16(old(Rest()));
              if p.Done? then r == Ok(p.value) && Rest() == p.rest else r == Err(p.fault)
    {
      var low: nat :- ReadByte();
      var high: nat :- ReadByte();
      return Ok(low + 256 * high);
    }
  }

  /** A least-significant-bit-first writer. */
  class BitWriter {
    var bytes: seq<Byte>
    var partial: nat
    var held: nat

    constructor ()
      ensures Valid() && Written() == []
    {
      bytes, partial, held := [], 0, 0;
    }

    ghost predicate Valid()
      reads this
    {
      held < 8 && partial < Pow2(held)
    }

    /** Every bit pushed so far, whole bytes and the held ones. */
    ghost function Written(): (s: seq<Bit>)
      reads this
    {
      StreamBits(bytes) + LsbBits(partial, held)
    }

    /** Writes one bit. */
    method PushBit(b: Bit)
      requires Valid()
      modifies this
      ensures Valid() && Written() == old(Written()) + [b]
    {
      LsbBitsPlaced(partial, held, b);
      partial := partial + b * Pow2(held);
      held := held + 1;
      if held == 8 {
        Pow2Of8();
        StreamBitsConcat(bytes, [partial]);
        assert StreamBits([partial]) == LsbBits(partial, 8) by { assert [partial][1..] == []; }
        bytes := bytes + [partial];
        partial := 0;
        held := 0;
        assert LsbBits(partial, held) == [];
      }
    }

    /** Writes an integer, least significant bit first. */
    method Push(value: nat, count: nat)
      requires Valid()
      modifies this
      ensures Valid() && Written() == old(Written()) + LsbBits(value, count)
    {
      for step := 0 to count
        invariant Valid()
        invariant Written() == old(Written()) + LsbBits(value, step)
      {
        LsbBitsExtend(value, step);
        PushBit((value / Pow2(step)) % 2);
      }
    }

    /** Writes an integer, most significant bit first, as a Huffman code is. */
    method PushReversed(value: nat, count: nat)
      requires Valid()
      modifies this
      ensures Valid() && Written() == old(Written()) + MsbBits(value, count)
    {
      ghost var code := MsbBits(value, count);
      for step := count downto 0
        invariant Valid()
        invariant Written() == old(Written()) + code[..count - step]
      {
        MsbBitAt(value, count, count - 1 - step);
        assert code[..count - step] == code[..count - step - 1] + [code[count - step - 1]];
        PushBit((value / Pow2(step)) % 2);
      }
      assert code[..count] == code;
    }

    /** Returns the stream, padding the last byte with zeroes. */
    method Finish() returns (stream: seq<Byte>)
      requires Valid()
      ensures |StreamBits(stream)| < |Written()| + 8
      ensures Written() <= StreamBits(stream)
      ensures forall k :: |Written()| <= k < |StreamBits(stream)| ==> StreamBits(stream)[k] == 0
    {
      stream := bytes;
      if held > 0 {
        PadByte(partial, held);
        StreamBitsConcat(bytes, [partial]);
        assert StreamBits([partial]) == LsbBits(partial, 8) by { assert [partial][1..] == []; }
        stream := bytes + [partial];
      }
    }
  }

  /** A partial byte written whole is its held bits and then zeroes. */
  lemma {:induction false} PadByte(partial: nat, held: nat)
    requires held < 8 && partial < Pow2(held)
    ensures partial < 256
    ensures LsbBits(partial, held) <= LsbBits(partial, 8)
    ensures forall k :: held <= k < 8 ==> LsbBits(partial, 8)[k] == 0
  {
    PadBits(partial, held, 8);
    Pow2Of8();
  }

  lemma {:induction false} PadBits(v: nat, n: nat, m: nat)
    requires n <= m && v < Pow2(n)
    ensures v < Pow2(m)
    ensures LsbBits(v, n) <= LsbBits(v, m)
    ensures forall k :: n <= k < m ==> LsbBits(v, m)[k] == 0
    decreases m - n
  {
    if n < m {
      LsbBitsPlaced(v, n, 0);
      assert LsbBits(v, n + 1) == LsbBits(v, n) + [0];
      PadBits(v, n + 1, m);
    }
  }
}
