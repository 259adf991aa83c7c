/** The decoder as it runs: a bit reader advanced in place and an output that is
    pushed onto, each step proved to be the one the specification takes. A loop's
    invariant is that the parse of what is unread, put after what was built, is the
    parse the loop began with. */
module Inflater {
  import opened Bits
  import opened BitStreams
  import opened Huffman
  import opened DeflateFormat
  import opened InflateSpec
  import opened Wrappers

  /** What a method returned and where it left the reader is what the parser
      gives; after a fault the position is not looked at again. */
  ghost predicate Agrees<T(!new)>(r: Result<T, Fault>, rest: seq<Bit>, p: Parse<T>) {
    if p.Done? then r == Ok(p.value) && rest == p.rest else r == Err(p.fault)
  }

  /** Copies a stored block, which carries its length and no codes at all. */
  method ReadStored(bits: BitReader, out: seq<Byte>) returns (r: Result<seq<Byte>, Fault>)
    requires bits.Valid()
    modifies bits
    ensures bits.Valid() && Agrees(r, bits.Rest(), StoredBlock(old(bits.Rest()), out))
  {
    bits.Align();
    var length :- bits.ReadU16();
    var complement :- bits.ReadU16();
    if length != 0xffff - complement {
      return Err(StoredLengthContradicted);
    }
    var so := out;
    ghost var expected := TakeBytes(bits.Rest(), length, out);
    for step := 0 to length
      invariant bits.Valid() && bits.bit == 0
      invariant TakeBytes(bits.Rest(), length - step, so) == expected
    {
      var b :- bits.ReadByte();
      so := so + [b];
    }
    return Ok(so);
  }

  /** Copies a match a byte at a time, since it may overlap its own output. */
  method CopyMatch(out: seq<Byte>, distance: nat, length: nat) returns (so: seq<Byte>)
    requires 1 <= distance <= |out|
    ensures so == Copied(out, distance, length)
  {
    so := out;
    var from := |out| - distance;
    for step := 0 to length
      invariant so == Copied(out, distance, step)
    {
      so := so + [so[from + step]];
    }
  }

  /** Reads the extra bits and the distance that follow a length code, and
      copies the match. */
  method ReadMatch(bits: BitReader, out: seq<Byte>, index: nat, distances: Tree, ghost distanceLengths: seq<nat>)
    returns (r: Result<seq<Byte>, Fault>)
    requires bits.Valid() && distances.Describes(distanceLengths)
    modifies bits
    ensures bits.Valid()
    ensures var p := ParseMatch(distanceLengths, old(bits.Rest()), index);
            if p.Fail? then r == Err(p.fault)
            else if !Applies(out, p.value.token) then r == Err(ReachesBeforeOutput)
            else r == Ok(Apply(out, p.value.token)) && bits.Rest() == p.rest
  {
    hide Decode, Take, LengthBase, LengthExtra, DistanceBase, DistanceExtra, Pow2, Applies, Apply, Copied, WellFormed;
    if index >= 29 {
      return Err(NoSuchLengthCode);
    }
    var lengthExtra :- bits.ReadBits(LengthExtra(index));
    var length: nat := LengthBase(index) + lengthExtra;
    var code :- distances.ReadSymbol(bits, distanceLengths);
    if code >= 30 {
      return Err(NoSuchDistanceCode);
    }
    var distanceExtra :- bits.ReadBits(DistanceExtra(code));
    var distance: nat := DistanceBase(code) + distanceExtra;
    ghost var t := Match(index, lengthExtra, code, distanceExtra);
    assert ParseMatch(distanceLengths, old(bits.Rest()), index) == Done(Data(t), bits.Rest());
    AppliesMatch(out, t);
    if distance == 0 || distance > |out| {
      return Err(ReachesBeforeOutput);
    }
    var so := CopyMatch(out, distance, length);
    return Ok(so);
  }

  /** Decodes one Huffman-coded block onto the end of the output. */
  method ReadCompressed(bits: BitReader, out: seq<Byte>, literals: Tree, distances: Tree,
                        ghost literalLengths: seq<nat>, ghost distanceLengths: seq<nat>)
    returns (r: Result<seq<Byte>, Fault>)
    requires bits.Valid() && literals.Describes(literalLengths) && distances.Describes(distanceLengths)
    modifies bits
    ensures bits.Valid()
    ensures Agrees(r, bits.Rest(), Compressed(literalLengths, distanceLengths, old(bits.Rest()), out))
  {
    hide Decode, ParseMatch, Applies, Apply;
    var so: seq<Byte> := out;
    ghost var expected := Compressed(literalLengths, distanceLengths, bits.Rest(), out);
    while true
      invariant bits.Valid()
      invariant Compressed(literalLengths, distanceLengths, bits.Rest(), so) == expected
      decreases |bits.Rest()|
    {
      ghost var s := bits.Rest();
      var symbol :- literals.ReadSymbol(bits, literalLengths);
      if symbol == END_OF_BLOCK {
        return Ok(so);
      }
      if symbol < END_OF_BLOCK {
        AppliesLiteral(so, symbol);
        so := so + [symbol];
      } else {
        assert ParseItem(literalLengths, distanceLengths, s) == ParseMatch(distanceLengths, bits.Rest(), symbol - 257);
        so :- ReadMatch(bits, so, symbol - 257, distances, distanceLengths);
      }
    }
  }

  /** Builds the two trees a fixed-Huffman block uses. */
  method FixedTrees() returns (literals: Tree, distances: Tree)
    ensures literals.Describes(FixedLiterals()) && distances.Describes(FixedDistances())
  {
    var lengths: seq<Byte> := [];
    for symbol := 0 to 288
      invariant |lengths| == symbol
      invariant forall k :: 0 <= k < symbol ==> lengths[k] == FixedLiterals()[k]
    {
      lengths := lengths + [FixedLiteralLength(symbol)];
    }
    assert lengths == FixedLiterals();
    literals := FromLengths(lengths);
    distances := FromLengths(seq(30, _ => 5));
  }

  ghost function Onto(codes: seq<Byte>, p: Parse<seq<Byte>>): Parse<seq<Byte>> {
    if p.Done? then Done(codes + p.value, p.rest) else p
  }

  lemma ThreesStep(codes: seq<Byte>, s: seq<Bit>, n: nat)
    requires n > 0
    ensures var t := Take(s, 3);
            if t.Done? then t.value < 8 && Onto(codes, TakeThrees(s, n)) == Onto(codes + [t.value], TakeThrees(t.rest, n - 1))
            else Onto(codes, TakeThrees(s, n)) == Fail(t.fault)
  {
    var t := Take(s, 3);
    if t.Done? {
      TakeExact(s, 3, t.value, t.rest);
      SmallPowers();
      var p := TakeThrees(t.rest, n - 1);
      if p.Done? {
        Regroup2(codes, [t.value], p.value);
      }
    }
  }

  lemma PlacedNext(codes: seq<Byte>, v: Byte, at: nat)
    requires at == |codes| < 19
    ensures Placed(codes + [v], at + 1) == Placed(codes, at)[CodeLengthPlace(at) := v]
  {
    PlacedExtends(codes, [v], at);
  }

  lemma {:induction false} PlacedExtends(codes: seq<Byte>, more: seq<Byte>, n: nat)
    requires n <= |codes| && n <= 19
    ensures Placed(codes + more, n) == Placed(codes, n)
  {
    if n != 0 {
      PlacedExtends(codes, more, n - 1);
    }
  }

  /** Reads the code lengths of the code-length code into their places. */
  method ReadCodeLengths(bits: BitReader, count: nat) returns (r: Result<seq<Byte>, Fault>, ghost codes: seq<Byte>)
    requires bits.Valid() && count <= 19
    modifies bits
    ensures bits.Valid()
    ensures var p := TakeThrees(old(bits.Rest()), count);
            if p.Done? then codes == p.value && r == Ok(Placed(codes, count)) && bits.Rest() == p.rest
            else r == Err(p.fault)
  {
    hide Take, TakeThrees, Placed, CodeLengthPlace, Onto;
    var lengths: seq<Byte> := Repeated(0, 19);
    codes := [];
    ghost var expected := TakeThrees(bits.Rest(), count);
    NothingPlaced(expected);
    for at := 0 to count
      invariant bits.Valid() && |codes| == at && |lengths| == 19
      invariant lengths == Placed(codes, at)
      invariant Onto(codes, TakeThrees(bits.Rest(), count - at)) == expected
    {
      ThreesStep(codes, bits.Rest(), count - at);
      var t := bits.ReadBits(3);
      if t.Err? {
        return Err(t.fault), codes;
      }
      var v: Byte := t.value;
      PlacedNext(codes, v, at);
      codes := codes + [v];
      lengths := lengths[CodeLengthPlace(at) := v];
    }
    NoThrees(codes, bits.Rest());
    return Ok(lengths), codes;
  }

  lemma NothingPlaced(p: Parse<seq<Byte>>)
    ensures Onto([], p) == p && Placed([], 0) == Repeated(0, 19)
  {
    assert p.Done? ==> [] + p.value == p.value;
  }

  lemma NoThrees(codes: seq<Byte>, s: seq<Bit>)
    ensures Onto(codes, TakeThrees(s, 0)) == Done(codes, s)
  {
    assert codes + [] == codes;
  }

  /** Reads one symbol of the list of code lengths and pushes what it stands for. */
  method ReadRun(bits: BitReader, tree: Tree, ghost code: seq<nat>, sofar: seq<Byte>) returns (r: Result<seq<Byte>, Fault>)
    requires bits.Valid() && tree.Describes(code) && |code| == 19
    modifies bits
    ensures bits.Valid()
    ensures var p := ParseRun(code, old(bits.Rest()), sofar == []);
            if p.Done? then r == Ok(ApplyRun(sofar, p.value)) && bits.Rest() == p.rest else r == Err(p.fault)
  {
    hide Decode, Take, Pow2;
    var symbol :- tree.ReadSymbol(bits, code);
    if symbol <= 15 {
      return Ok(sofar + [symbol]);
    } else if symbol == 16 {
      if sofar == [] {
        return Err(RepeatOfNothing);
      }
      var previous := sofar[|sofar| - 1];
      var extra :- bits.ReadBits(2);
      var so := sofar;
      for step := 0 to extra + 3
        invariant so == sofar + Repeated(previous, step)
      {
        so := so + [previous];
      }
      return Ok(so);
    } else if symbol == 17 {
      var extra :- bits.ReadBits(3);
      return Ok(sofar + Repeated(0, 3 + extra));
    } else {
      var extra :- bits.ReadBits(7);
      return Ok(sofar + Repeated(0, 11 + extra));
    }
  }

  method ReadCounts(bits: BitReader) returns (r: Result<(nat, nat, nat), Fault>)
    requires bits.Valid()
    modifies bits
    ensures bits.Valid() && Agrees(r, bits.Rest(), HeaderCounts(old(bits.Rest())))
  {
    hide Take;
    var moreLiterals :- bits.ReadBits(5);
    var moreDistances :- bits.ReadBits(5);
    var moreCodes :- bits.ReadBits(4);
    return Ok((moreLiterals, moreDistances, moreCodes));
  }

  /** Reads the two trees a dynamic-Huffman block declares. */
  method DynamicTrees(bits: BitReader)
    returns (r: Result<(Tree, Tree), Fault>, ghost literalLengths: seq<Byte>, ghost distanceLengths: seq<Byte>)
    requires bits.Valid()
    modifies bits
    ensures bits.Valid()
    ensures var p := DynamicLengths(old(bits.Rest()));
            if p.Done? then
              && r.Ok? && bits.Rest() == p.rest && p.value == (literalLengths, distanceLengths)
              && r.value.0.Describes(literalLengths) && r.value.1.Describes(distanceLengths)
            else r == Err(p.fault)
  {
    hide HeaderCounts, TakeThrees, ReadRuns, Placed, Tree.Describes;
    literalLengths, distanceLengths := [], [];
    var counts := ReadCounts(bits);
    if counts.Err? {
      return Err(counts.fault), [], [];
    }
    var placed, codes := ReadCodeLengths(bits, counts.value.2 + 4);
    if placed.Err? {
      return Err(placed.fault), [], [];
    }
    var tree := FromLengths(placed.value);
    var literalCount: nat := counts.value.0 + 257;
    var total: nat := literalCount + counts.value.1 + 1;
    var lengths := ReadLengths(bits, tree, placed.value, total);
    if lengths.Err? {
      return Err(lengths.fault), [], [];
    }
    var held := lengths.value[..total];
    literalLengths, distanceLengths := held[..literalCount], held[literalCount..];
    assert literalLengths == lengths.value[..literalCount] && distanceLengths == lengths.value[literalCount..total];
    var literals := FromLengths(held[..literalCount]);
    var distances := FromLengths(held[literalCount..]);
    return Ok((literals, distances)), literalLengths, distanceLengths;
  }

  /** Reads code lengths until there are as many as were declared, or more. */
  method ReadLengths(bits: BitReader, tree: Tree, ghost code: seq<nat>, total: nat) returns (r: Result<seq<Byte>, Fault>)
    requires bits.Valid() && tree.Describes(code) && |code| == 19
    modifies bits
    ensures bits.Valid() && Agrees(r, bits.Rest(), ReadRuns(code, total, [], old(bits.Rest())))
  {
    hide ParseRun, ApplyRun;
    var lengths: seq<Byte> := [];
    ghost var expected := ReadRuns(code, total, [], bits.Rest());
    while |lengths| < total
      invariant bits.Valid()
      invariant ReadRuns(code, total, lengths, bits.Rest()) == expected
      decreases |bits.Rest()|
    {
      lengths :- ReadRun(bits, tree, code, lengths);
    }
    return Ok(lengths);
  }

  /** Decodes the body of one block, of the type its header named. */
  method ReadBody(bits: BitReader, kind: nat, out: seq<Byte>) returns (r: Result<seq<Byte>, Fault>)
    requires bits.Valid()
    modifies bits
    ensures bits.Valid() && Agrees(r, bits.Rest(), BlockBody(kind, old(bits.Rest()), out))
  {
    hide StoredBlock, Compressed, DynamicLengths, FixedLiterals, FixedDistances;
    if kind == 0 {
      r := ReadStored(bits, out);
    } else if kind == 1 {
      var literals, distances := FixedTrees();
      r := ReadCompressed(bits, out, literals, distances, FixedLiterals(), FixedDistances());
    } else if kind == 2 {
      var trees, literalLengths, distanceLengths := DynamicTrees(bits);
      if trees.Err? {
        return Err(trees.fault);
      }
      r := ReadCompressed(bits, out, trees.value.0, trees.value.1, literalLengths, distanceLengths);
    } else {
      r := Err(NoSuchBlockType);
    }
  }

  /** Returns the raw DEFLATE stream decompressed. Every turn of the loop reads
      at least the three header bits, so it ends on every input. */
  method InflateBytes(input: seq<Byte>) returns (r: Result<seq<Byte>, Fault>)
    ensures r == Inflate(StreamBits(input))
  {
    hide BlockBody, Take;
    var bits := new BitReader(input);
    var out: seq<Byte> := [];
    ghost var expected := Blocks(bits.Rest(), []);
    while true
      invariant bits.Valid() && fresh(bits)
      invariant Blocks(bits.Rest(), out) == expected
      decreases |bits.Rest()|
    {
      var last :- bits.ReadBits(1);
      var kind :- bits.ReadBits(2);
      out :- ReadBody(bits, kind, out);
      if last == 1 {
        return Ok(out);
      }
    }
  }
}
