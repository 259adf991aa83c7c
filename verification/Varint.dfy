/** The SQLite variable-length integer (section 1.6 of the SQLite file format):
    up to eight bytes of seven bits, most significant first, or nine whose last
    carries eight. */
module Varint {
  import opened Bits
  import opened U64

  const MAX_LEN := 9
  const MAX_EIGHT_BYTE_VALUE: Word := 0xff_ffff_ffff_ffff

  datatype Fault = RanOffTheEnd | NineByteRanOff | DoesNotFit

  /** A decoded value and how many bytes it took. */
  datatype Decoded = Ok(value: Word, len: nat) | Err(fault: Fault)

  // ----- The format -----

  /** 128 to the `n`. */
  function Power(n: nat): (p: nat)
    ensures p >= 1
  {
    if n == 0 then 1 else 128 * Power(n - 1)
  }

  lemma PowerOfEight()
    ensures Power(8) == MAX_EIGHT_BYTE_VALUE + 1 && Power(1) == 128 && Power(0) == 1
  {
    assert Power(2) == 0x4000;
    assert Power(4) == 0x1000_0000;
    assert Power(6) == 0x400_0000_0000;
  }

  /** `n` bytes of seven bits, each saying that another follows. */
  function Continued(v: nat, n: nat): (s: seq<Byte>)
    ensures |s| == n
  {
    if n == 0 then [] else Continued(v / 128, n - 1) + [128 + v % 128]
  }

  /** How many bytes of seven bits a value takes. */
  function SevenBitLen(v: nat): (n: nat)
    ensures n >= 1 && v < Power(n) && (n > 1 ==> v >= Power(n - 1))
  {
    if v <= 127 then 1
    else
      var n := SevenBitLen(v / 128);
      assert v / 128 < Power(n) && v < Power(n + 1);
      assert n > 1 ==> v >= 128 * Power(n - 1);
      assert Power(n) == if n == 1 then 128 else 128 * Power(n - 1);
      n + 1
  }

  function EncodedLen(v: Word): nat {
    if v > MAX_EIGHT_BYTE_VALUE then 9 else SevenBitLen(v)
  }

  function Encoded(v: Word): (s: seq<Byte>)
    ensures |s| == EncodedLen(v)
  {
    if v > MAX_EIGHT_BYTE_VALUE then Continued(v / 256, 8) + [v % 256]
    else Continued(v / 128, SevenBitLen(v) - 1) + [v % 128]
  }

  lemma {:induction false} PowerMonotone(m: nat, n: nat)
    requires m <= n
    ensures Power(m) <= Power(n)
    decreases n - m
  {
    if m < n {
      PowerMonotone(m, n - 1);
    }
  }

  /** The seven-bit length is the least that will do. */
  lemma SevenBitLenIsLeast(v: nat, n: nat)
    requires v < Power(n)
    ensures SevenBitLen(v) <= n || v == 0
  {
    if SevenBitLen(v) > n {
      PowerMonotone(n, SevenBitLen(v) - 1);
    }
  }

  lemma EncodedLenBounds(v: Word)
    ensures 1 <= EncodedLen(v) <= 9
    ensures EncodedLen(v) == 9 <==> v > MAX_EIGHT_BYTE_VALUE
  {
    PowerOfEight();
    if v <= MAX_EIGHT_BYTE_VALUE {
      SevenBitLenIsLeast(v, 8);
    }
  }

  // ----- Encoding -----

  /** How many bytes a value takes, counted by shifting. */
  method ComputeEncodedLen(v: Word) returns (len: nat)
    ensures len == EncodedLen(v)
  {
    if v > MAX_EIGHT_BYTE_VALUE {
      return 9;
    }
    var remaining: nat := v;
    len := 1;
    while remaining > 127
      invariant len >= 1 && SevenBitLen(v) == len - 1 + SevenBitLen(remaining)
      decreases remaining
    {
      remaining := remaining / 128;
      len := len + 1;
    }
  }

  /** Fills a slice from its end with seven-bit groups; all but the last say that
      another follows when `final` does not. */
  lemma ContinuedSuffix(v: nat, n: nat, k: nat)
    requires k < n
    ensures Continued(v, n)[n - 1 - k] == 128 + (v / Power(k)) % 128
  {
    if k == 0 {
      assert v / 1 == v;
    } else {
      ContinuedSuffix(v / 128, n - 1, k - 1);
      QuotientByProduct(v, Power(k - 1));
    }
  }

  lemma QuotientByProduct(v: nat, p: nat)
    requires p > 0
    ensures (v / 128) / p == v / (128 * p)
  {
    var q, r := v / (128 * p), v % (128 * p);
    assert v == 128 * p * q + r;
    MulAssoc(128, p, q);
    assert v / 128 == p * q + r / 128 by { DivUnique(v, 128, p * q + r / 128, r % 128); }
    assert r / 128 < p;
    DivUnique(v / 128, p, q, r / 128);
  }

  /** Writes the nine-byte form: eight bytes of seven bits, then eight bits. */
  method WriteNineByteForm(target: array<Byte>, v: Word)
    requires target.Length >= 9
    modifies target
    ensures target[..9] == Continued(v / 256, 8) + [v % 256]
    ensures target[9..] == old(target[9..])
  {
    ghost var form := Continued(v / 256, 8);
    var remaining: nat := v / 256;
    for index := 8 downto 0
      invariant remaining == v / 256 / Power(8 - index)
      invariant forall k :: index <= k < 8 ==> target[k] == form[k]
      invariant target[8..] == old(target[8..])
    {
      ContinuedSuffix(v / 256, 8, 7 - index);
      QuotientStep(v / 256, 7 - index);
      target[index] := remaining % 128 + 128;
      remaining := remaining / 128;
    }
    target[8] := v % 256;
    assert target[..8] == form;
    assert target[9..] == old(target[8..])[1..] == old(target[9..]);
  }

  lemma QuotientStep(v: nat, k: nat)
    ensures (v / Power(k)) / 128 == v / Power(k + 1)
  {
    var p, q := Power(k), v / Power(k);
    var r, q', r' := v % p, q / 128, q % 128;
    assert v == p * q + r && q == 128 * q' + r';
    Distribute(p, 128 * q', r');
    MulAssoc(p, 128, q');
    Commute(p, 128);
    BelowProduct(p, 128, r, r');
    DivUnique(v, 128 * p, q', p * r' + r);
  }

  /** Encodes a value at the front of a buffer, or refuses a buffer that is too
      small and leaves it alone. */
  method Encode(target: array<Byte>, v: Word) returns (len: nat, fits: bool)
    modifies target
    ensures fits <==> target.Length >= EncodedLen(v)
    ensures fits ==> len == EncodedLen(v) && target[..len] == Encoded(v) && target[len..] == old(target[len..])
    ensures !fits ==> target[..] == old(target[..])
  {
    hide Encoded, EncodedLen, SevenBitLen, Continued, Power;
    EncodedLenBounds(v);
    PowerOfEight();
    len := ComputeEncodedLen(v);
    if target.Length < len {
      return len, false;
    }
    if len == 9 {
      NineByteForm(v);
      WriteNineByteForm(target, v);
      return 9, true;
    }
    ghost var form := Encoded(v);
    ghost var n := len;
    var remaining: nat := v;
    assert v / 1 == v;
    for index := len downto 0
      invariant remaining == v / Power(n - index)
      invariant forall k :: index <= k < n ==> target[k] == form[k]
      invariant target[n..] == old(target[n..])
    {
      EncodedByte(v, n - 1 - index);
      QuotientStep(v, n - 1 - index);
      var payload := remaining % 128;
      target[index] := if index + 1 == len then payload else payload + 128;
      remaining := remaining / 128;
    }
    assert target[..n] == form;
    return len, true;
  }

  lemma NineByteForm(v: Word)
    requires v > MAX_EIGHT_BYTE_VALUE
    ensures Encoded(v) == Continued(v / 256, 8) + [v % 256]
  {
  }

  lemma EncodedByte(v: Word, k: nat)
    requires v <= MAX_EIGHT_BYTE_VALUE && k < EncodedLen(v)
    ensures Encoded(v)[EncodedLen(v) - 1 - k] == (v / Power(k)) % 128 + if k == 0 then 0 else 128
  {
    var n := EncodedLen(v);
    if k == 0 {
      assert v / 1 == v;
    } else {
      ContinuedSuffix(v / 128, n - 1, k - 1);
      QuotientByProduct(v, Power(k - 1));
    }
  }

  // ----- Decoding -----

  /** Seven more bits below a value. */
  function Append(value: nat, b: Byte): nat {
    value * 128 + b % 128
  }

  /** The decoder after `index` bytes that each said another follows. */
  function DecodeFrom(s: seq<Byte>, index: nat, value: nat): (d: Decoded)
    requires index <= 8 && value < Power(index)
    ensures d.Ok? ==> d.len <= |s| && index < d.len <= MAX_LEN
    decreases 8 - index
  {
    PowerOfEight();
    if index == 8 then
      if |s| <= 8 then Err(NineByteRanOff) else Ok(value * 256 + s[8], 9)
    else if |s| <= index then Err(RanOffTheEnd)
    else
      var next := Append(value, s[index]);
      PowerMonotone(index + 1, 8);
      if s[index] < 128 then Ok(next, index + 1) else DecodeFrom(s, index + 1, next)
  }

  function Decode(s: seq<Byte>): (d: Decoded)
    ensures d.Ok? ==> d.len <= |s| && 1 <= d.len <= MAX_LEN
  {
    DecodeFrom(s, 0, 0)
  }

  /** One turn of the decoder. */
  lemma DecodeStep(s: seq<Byte>, index: nat, value: nat)
    requires index < 8 && value < Power(index)
    ensures |s| <= index ==> DecodeFrom(s, index, value) == Err(RanOffTheEnd)
    ensures |s| > index ==>
              var next := Append(value, s[index]);
              && next < Power(index + 1) && next < MODULUS
              && DecodeFrom(s, index, value) ==
                 if s[index] < 128 then Ok(next, index + 1) else DecodeFrom(s, index + 1, next)
  {
    PowerOfEight();
    PowerMonotone(index + 1, 8);
  }

  lemma DecodeLast(s: seq<Byte>, value: nat)
    requires value < Power(8)
    ensures |s| <= 8 ==> DecodeFrom(s, 8, value) == Err(NineByteRanOff)
    ensures |s| > 8 ==> value * 256 + s[8] < MODULUS && DecodeFrom(s, 8, value) == Ok(value * 256 + s[8], 9)
  {
    PowerOfEight();
  }

  /** Decodes the varint at the front of a buffer. */
  method DecodeBytes(s: seq<Byte>) returns (d: Decoded)
    ensures d == Decode(s)
  {
    var value: nat := 0;
    hide Decode, DecodeFrom, Power, Append;
    PowerOfEight();
    DecodeStart(s, 0);
    for index := 0 to 8
      invariant value < Power(index)
      invariant DecodeFrom(s, index, value) == Decode(s)
    {
      DecodeStep(s, index, value);
      if index >= |s| {
        return Err(RanOffTheEnd);
      }
      value := Append(value, s[index]);
      if s[index] < 128 {
        return Ok(value, index + 1);
      }
    }
    DecodeLast(s, value);
    if 8 >= |s| {
      return Err(NineByteRanOff);
    }
    return Ok(value * 256 + s[8], 9);
  }

  lemma ContinuedParts(v: nat, n: nat, s: seq<Byte>)
    requires n > 0 && Continued(v, n) <= s
    ensures Continued(v / 128, n - 1) <= s && |s| >= n && s[n - 1] == 128 + v % 128
  {
    assert Continued(v, n)[..n - 1] == Continued(v / 128, n - 1);
    assert Continued(v, n)[n - 1] == 128 + v % 128;
  }

  lemma Recombine(v: nat)
    ensures v / 128 * 128 + (128 + v % 128) % 128 == v
    ensures v / 128 * 128 + (v % 128) % 128 == v
    ensures v / 256 * 256 + v % 256 == v
  {
  }

  lemma DecodeStart(s: seq<Byte>, v: nat)
    requires v < Power(0)
    ensures Decode(s) == DecodeFrom(s, 0, v)
  {
  }

  lemma PowerStep(v: nat, n: nat)
    requires n > 0 && v < Power(n)
    ensures v / 128 < Power(n - 1)
  {
  }

  /** Continuation bytes are read back as the number they carry. */
  lemma {:induction false} DecodeContinued(s: seq<Byte>, v: nat, n: nat)
    requires n <= 8 && v < Power(n) && Continued(v, n) <= s
    ensures Decode(s) == DecodeFrom(s, n, v)
  {
    hide Decode, DecodeFrom, Power, Continued;
    if n == 0 {
      DecodeStart(s, v);
    } else {
      PowerStep(v, n);
      ContinuedParts(v, n, s);
      Recombine(v);
      DecodeContinued(s, v / 128, n - 1);
      DecodeStep(s, n - 1, v / 128);
    }
  }

  /** What is encoded decodes to itself, whatever follows. */
  lemma DecodeInvertsEncode(v: Word, rest: seq<Byte>)
    ensures Decode(Encoded(v) + rest) == Ok(v, EncodedLen(v))
  {
    var s := Encoded(v) + rest;
    EncodedLenBounds(v);
    PowerOfEight();
    var n := EncodedLen(v);
    if v > MAX_EIGHT_BYTE_VALUE {
      Recombine(v);
      hide DecodeFrom, Power, SevenBitLen, Continued;
      assert s[..8] == Continued(v / 256, 8);
      DecodeContinued(s, v / 256, 8);
      DecodeLast(s, v / 256);
    } else {
      assert v / 128 < Power(n - 1) by { assert v < 128 * Power(n - 1); }
      Recombine(v);
      hide DecodeFrom, Power, SevenBitLen, Continued;
      assert s[..n - 1] == Continued(v / 128, n - 1) && s[n - 1] == v % 128;
      DecodeContinued(s, v / 128, n - 1);
      DecodeStep(s, n - 1, v / 128);
    }
  }

  /** Every proper prefix of an encoding is refused. */
  lemma PrefixesAreRefused(v: Word, k: nat)
    requires k < EncodedLen(v)
    ensures Decode(Encoded(v)[..k]).Err?
  {
    EncodedLenBounds(v);
    var n := EncodedLen(v);
    var w := if v > MAX_EIGHT_BYTE_VALUE then v / 256 else v / 128;
    assert Encoded(v)[..k] == Continued(w, n - 1)[..k];
    var w' := ContinuedPrefix(w, n - 1, k);
    ReadsOn(w', k);
  }

  lemma {:induction false} ContinuedPrefix(v: nat, n: nat, k: nat) returns (w: nat)
    requires k <= n
    ensures Continued(v, n)[..k] == Continued(w, k)
    decreases n
  {
    if k == n {
      w := v;
      assert Continued(v, n)[..k] == Continued(v, n);
    } else {
      w := ContinuedPrefix(v / 128, n - 1, k);
      assert Continued(v, n)[..k] == Continued(v / 128, n - 1)[..k];
    }
  }

  /** Bytes that all promise another never make a value by themselves. */
  lemma ReadsOn(w: nat, k: nat)
    requires k <= 8
    ensures Decode(Continued(w, k)).Err?
  {
    AllContinue(w, k);
    RunsOff(Continued(w, k), 0, 0);
  }

  lemma {:induction false} AllContinue(w: nat, k: nat)
    ensures forall i :: 0 <= i < k ==> Continued(w, k)[i] >= 128
  {
    if k != 0 {
      AllContinue(w / 128, k - 1);
    }
  }

  lemma {:induction false} RunsOff(s: seq<Byte>, index: nat, value: nat)
    requires index <= |s| <= 8 && value < Power(index)
    requires forall i :: 0 <= i < |s| ==> s[i] >= 128
    ensures DecodeFrom(s, index, value).Err?
    decreases |s| - index
  {
    if index < |s| {
      RunsOff(s, index + 1, Append(value, s[index]));
    }
  }

  lemma {:induction false} DecodeFromSound(s: seq<Byte>, index: nat, value: nat)
    requires index <= 8 && index <= |s| && value < Power(index) && Continued(value, index) == s[..index]
    requires DecodeFrom(s, index, value).Ok?
    ensures var d := DecodeFrom(s, index, value);
            if d.len == 9 then s[..9] == Continued(d.value / 256, 8) + [d.value % 256]
            else d.value < Power(d.len) && s[..d.len] == Continued(d.value / 128, d.len - 1) + [d.value % 128]
    decreases 8 - index
  {
    hide DecodeFrom, Power, Append, Continued;
    if index == 8 {
      DecodeLast(s, value);
      DivUnique(value * 256 + s[8], 256, value, s[8]);
      assert s[..9] == s[..8] + [s[8]];
    } else {
      DecodeStep(s, index, value);
      AppendParts(value, s[index], index);
      assert s[..index + 1] == s[..index] + [s[index]];
      if s[index] >= 128 {
        DecodeFromSound(s, index + 1, Append(value, s[index]));
      }
    }
  }

  lemma AppendParts(value: nat, b: Byte, n: nat)
    ensures Append(value, b) / 128 == value && Append(value, b) % 128 == b % 128
    ensures b < 128 ==> b % 128 == b
    ensures b >= 128 ==> Continued(Append(value, b), n + 1) == Continued(value, n) + [b]
  {
    DivUnique(Append(value, b), 128, value, b % 128);
  }

  /** Any bytes that decode to a value are at least as many as its encoding, and
      when they are as many they are its encoding. */
  lemma DecodedIsEncoding(s: seq<Byte>)
    requires Decode(s).Ok?
    ensures var d := Decode(s);
            d.len >= EncodedLen(d.value) && (d.len == EncodedLen(d.value) ==> s[..d.len] == Encoded(d.value))
  {
    var d := Decode(s);
    DecodeFromSound(s, 0, 0);
    EncodedLenBounds(d.value);
    if d.len < 9 {
      PowerOfEight();
      PowerMonotone(d.len, 8);
      SevenBitLenIsLeast(d.value, d.len);
    }
  }

  /** A longer spelling than the encoding is possible, and is accepted: a zero
      byte may be promised and then given. */
  lemma LongerSpellingsAreAccepted(s: seq<Byte>)
    requires |s| >= 2 && s[0] == 128 && s[1] < 128
    ensures Decode(s) == Ok(s[1], 2) && EncodedLen(s[1]) == 1
  {
    hide DecodeFrom, Power;
    PowerOfEight();
    DecodeStep(s, 0, 0);
    DecodeStep(s, 1, 0);
    SmallSpelling(s[1]);
  }

  lemma SmallSpelling(b: Byte)
    requires b < 128
    ensures EncodedLen(b) == 1 && Append(0, 128) == 0 && Append(0, b) == b
  {
  }
}
