# Inillucent, verified models

This project models the parts of Inillucent whose correctness is arithmetic,
bit layout, mutable state or interleaving, and proves what the code and its
documentation promise of them. `dafny verify dfyconfig.toml` checks all of it.

The parts, and the modules that hold them:

- **DEFLATE and zlib.** `Bits` and `BitStreams` (the two bit orders, the reader
  and the writer), `Huffman` (canonical codes and the decoding table),
  `DeflateFormat` (what the decoder reads, as a grammar: tokens, runs, headers,
  blocks), `InflateSpec` (the decoder as a parse, and that it accepts exactly the
  grammar), `RfcFormat` (what RFC 1951 itself allows, and exactly how much more
  the decoder accepts), `Inflater` and `Deflater` (the decoder and the compressor
  as they run), `Zlib` (the wrapper, Adler-32 and the round trips). `Spelling`,
  `KnownStreams` and `KnownZlib` decode streams given by their bytes, one of each
  type of block, so that no table or constant rests on itself. That the
  compressor's stream is right is proved for any contents of the matcher's
  chains, and how small it is on repeats from what the chains hold; the decoder
  is proved for every input.
- **Checksums.** `Crc32` compares slice-by-eight with the one-bit-at-a-time
  register and proves burst detection, `Crc32Known` has the check value;
  `WalChecksum` is the log's pair of sums, as Fibonacci-weighted words too.
- **Digests.** `Sha256` and `Sha3` prove the in-place permutations and the
  streaming hashers against FIPS 180-4 and FIPS 202 for every cut of a message.
  `Sha3Bits` states the step mappings on single bits; `Sha256Vectors` and
  `Sha3Vectors` each compute a published digest.
- **Table hash and generator.** `U64`, `TableHash` and `Rng` rest on which maps
  of 64-bit words are one-to-one; `KnownWords` has values known from elsewhere.
- **Varints.** `Varint`, both directions and every error; `KnownVarints`, the bytes
  at the widths it turns at.
- **The allocator.** `Allocator` keeps one abstract account of every block
  (made, live, listed) and proves that the class over memory, with links stored
  inside the free blocks, follows it on any number of threads. `Footprint` is how
  much it keeps over whole runs, and which runs reach the bounds. `Recycling` says
  in sizes and alignments alone which requests it serves again and which resizes
  stay where they are.
- **Embedding.** `Embedding` has the cut of a text, the partition into batches,
  the check of a reply, the workers as a state machine over all interleavings,
  and the whole call put together from these; `EmbeddingCuts`, which text is sent
  for one that is too long.
- **The request budget.** `Budget` is the operations; `BudgetRuns` every
  well-nested run of them, other threads raising flags included; `BudgetNesting`
  how far nested guards can carry a request past the budget it runs under.
- **The corpus cache.** `CorpusCache`, the file both ways and the bytes a digest
  is taken over; `CorpusDamage`, what a cut file or one with vectors of the wrong
  width loads as. `Utf8` is which bytes are strings, `CorpusTexts` the round trip
  for strings given as scalar values, and `KnownCache` one file byte by byte.

`LittleEndian`, `ByteStrings`, `Numbers` and `Wrappers` are shared by several of
them.

How the models are written: code that changes fields or buffers is a class or a
method over arrays, proved against a function or a grammar, and the theorems are
about that. Bytes of DEFLATE, varints, the allocator and the cache are integers
below 256; the words of the checksums and digests are bit vectors; the 64-bit
words of the table hash and the generator are integers modulo 2^64, with
exclusive or defined bit by bit, because their proofs are about inverses. An
`or` of bits into a place known to be zero is written as the addition it is. The
tables the program builds at compile time (the CRC tables, the allocator's caps)
are built by methods and passed as values known to be what those methods build. A
rotation of a lane by `n` places is `n` rotations by one, which `Sha3Bits` ties to
single bits.

Where the code and its documentation disagree the model follows the code:

- `deflate.rs` line 3 says that what is decoded is exactly what RFC 1951 defines.
  Everything RFC 1951 allows is decoded (`RfcFormat.RfcStreamsInflate`), and more:
  a match of 258 bytes written with code 284, whose row in the table of section
  3.2.5 ends at 257; and dynamic headers with 287 or 288 literal codes, with runs
  that go past the lengths declared, with a single distance code of more than the
  one bit section 3.2.7 gives it, or with lists that are not trees, over-subscribed
  or incomplete. `RfcFormat.AcceptedIsRfcExactly` says when an accepted stream is
  one the standard allows, and the lemmas beside it give a stream for each check.
  Incomplete lists are counted as not allowed because section 3.2.1 defines a
  prefix code as a tree in which two edges descend from every node that is not a
  leaf and every leaf is a symbol, and section 3.2.7 makes an exception for
  distance codes only: one code of one bit with the other unused, or none.
- `deflate.rs` line 16 says the encoder's output is "larger on nothing". It is
  larger on every input of three bytes or fewer (`Deflater.DeflateFew`) and on
  every input with no triple of bytes repeated within the window, by exactly what
  `Deflater.DeflateBytes` says; it is not larger on inputs that go on repeating
  themselves for long enough (`Deflater.DeflateRepeats`), and on equal bytes
  exactly from four on (`Deflater.DeflateEqual`).
- `deflate.rs` lines 147-149 say a zlib stream cut short of its checksum is
  reported rather than refused. The last four bytes are taken for a checksum
  whenever the input is longer than six bytes, the body's own if need be:
  `Zlib.CutShortExactly` says which streams are accepted and
  `Zlib.CutShortIsRefused` is one that is not.
- The allocator's comment (lines 111-116) speaks of 16 KiB a class and about
  4 MiB in all. The constant is 64 KiB a class:
  `Footprint.MoreThanFourMebibytesAreKept` is a run after which one thread keeps
  more than 12 MiB, and `Footprint.RetentionStaysWithinExactly` says for which
  classes the 4 MiB, or any other limit, does hold.
- Lines 3-9 and 98-101 of the allocator say it does not accumulate. What it keeps
  is bounded by the classes and the number of threads there have been
  (`Footprint.FootprintIsBounded`), and over threads that come and go by nothing
  else (`Footprint.StrandingHasNoBound`).
- `llamacpp.rs` (lines 232-234 and 256-258) keeps margins because the server may
  count two tokens more. A text of the bound's tokens, or one fewer, gets neither:
  `Embedding.ServerTakesExactly` says which requests such a server is sure to
  take.
- `budget.rs` (lines 20-22 and 170-172) says a nested guard runs inside its
  caller's budget. It runs beside it: nothing charged under it reaches the
  caller, and only its own deadline is looked at.
  `BudgetNesting.StaysWithinExactly`, `BudgetNesting.NeverWidensExactly` and
  `BudgetNesting.StopsByExactly` say when that cannot matter, for rows, bytes and
  time, and the lemmas beside them are runs in which it does.
- The same comment says a guard restores whatever was there before. What `arm`
  lowers, the flag, it does not: `BudgetRuns.CancellationSurvives` says exactly
  when a caller's cancellation outlives the guards inside it.
- `varint.rs` promises that encoding is shortest, which holds; decoding also
  accepts longer spellings (`Varint.LongerSpellingsAreAccepted`).

## Model

| member | source | states |
|---|---|---|
| `BitStreams.BitReader.ReadBit` | crates/inillucent-base/src/deflate.rs:482-494 | Takes the first of the unread bits and leaves the rest, or reports that the stream ends and changes nothing; never indexes past the input. |
| `BitStreams.BitReader.ReadBits` | crates/inillucent-base/src/deflate.rs:496-505 | Reads the next `count` bits as an integer, lowest bit first, or fails as soon as they run out. |
| `Bits.OrOfFreshBitIsAddition` | crates/inillucent-base/src/deflate.rs:496-505 | Setting a bit that is zero is adding it, so the sums written here are the code's `or`s. |
| `BitStreams.TakeExact` | crates/inillucent-base/src/deflate.rs:496-505 | `count` bits read as `v` exactly when the stream begins with the `count` low bits of `v`, lowest first: reading inverts writing, both ways. |
| `BitStreams.BitReader.Align` | crates/inillucent-base/src/deflate.rs:507-513 | Drops exactly the bits up to the next byte boundary. |
| `BitStreams.BitReader.ReadByte` | crates/inillucent-base/src/deflate.rs:515-522 | On a boundary, takes the eight bits of one whole byte or fails without moving. |
| `BitStreams.BitReader.ReadU16` | crates/inillucent-base/src/deflate.rs:524-529 | On a boundary, takes a sixteen-bit integer, low byte first. |
| `BitStreams.TakeU16IsTake` | crates/inillucent-base/src/deflate.rs:524-529 | The two-byte read is the sixteen-bit read of the bit stream. |
| `BitStreams.BitWriter.Push` | crates/inillucent-base/src/deflate.rs:541-549 | Appends exactly the low `count` bits of an integer, lowest first, to the bits written so far. |
| `BitStreams.BitWriter.PushReversed` | crates/inillucent-base/src/deflate.rs:551-559 | Appends the same bits highest first, as a Huffman code travels. |
| `BitStreams.BitWriter.Finish` | crates/inillucent-base/src/deflate.rs:572-578 | The bytes returned hold every bit written, then fewer than eight padding bits, all zero. |
| `Huffman.FromLengths` | crates/inillucent-base/src/deflate.rs:593-625 | For any list of at most 65535 code lengths, over-subscribed ones included, the table built holds the count of every length and every coded symbol in the slot its length and rank give it. |
| `Huffman.CountLengths` | crates/inillucent-base/src/deflate.rs:594-602 | The per-length counts, with length zero and lengths above fifteen left out. |
| `Huffman.Offsets` | crates/inillucent-base/src/deflate.rs:603-610 | Where each length's symbols begin. |
| `Huffman.PlaceSymbols` | crates/inillucent-base/src/deflate.rs:611-623 | Every coded symbol lands in its own slot and no slot is written twice. |
| `Huffman.SlotInRange` | crates/inillucent-base/src/deflate.rs:611-623 | A coded symbol's slot is inside the symbol list, for any list of lengths. |
| `Huffman.SlotsDiffer` | crates/inillucent-base/src/deflate.rs:611-623 | Two coded symbols never share a slot. |
| `Huffman.Tree.ReadSymbol` | crates/inillucent-base/src/deflate.rs:633-653 | The table walk returns what the canonical code says for the unread bits and consumes exactly that code; it never indexes outside its tables and never meets a code with no symbol. |
| `Huffman.Tree.WalkStep` | crates/inillucent-base/src/deflate.rs:637-651 | Through the walk the code never falls below the first code of its length, and the three running numbers are the code so far, the first code and the first index. |
| `Huffman.DecodeInvertsCode` | crates/inillucent-base/src/deflate.rs:633-653 | A symbol's canonical code followed by anything decodes to that symbol and leaves exactly what followed. |
| `Huffman.DecodeIsTheCanonicalCode` | crates/inillucent-base/src/deflate.rs:593-653 | Decoding yields a symbol and a rest if and only if the stream is that symbol's canonical code (section 3.2.2 of RFC 1951) followed by the rest, for every list of lengths. |
| `Huffman.CodesArePrefixFree` | crates/inillucent-base/src/deflate.rs:633-653 | No canonical code is a prefix of another symbol's. |
| `Huffman.KraftIffEveryCodeFits` | crates/inillucent-base/src/deflate.rs:593-625 | The lengths satisfy Kraft's inequality if and only if every coded symbol has a code that fits its length. |
| `Huffman.CompleteCodesAlwaysDecode` | crates/inillucent-base/src/deflate.rs:633-653 | With a complete code, fifteen bits always decode: the "longer than fifteen bits" failure needs an incomplete code. |
| `DeflateFormat.CopiedIsUnique` | crates/inillucent-base/src/deflate.rs:241-245 | An overlapping copy is the only extension of the output in which every new byte repeats the one `distance` before it. |
| `DeflateFormat.Copied` | crates/inillucent-base/src/deflate.rs:241-245 | The copy keeps the output, adds `length` bytes, and each is the byte `distance` before it, new ones included. |
| `InflateSpec.InflateIsTheFormat` | crates/inillucent-base/src/deflate.rs:75-96 | A stream inflates to some data if and only if it begins with a sequence of blocks of the decoder's grammar, the last one marked, whose tokens, stored bytes and dynamic headers produce exactly that data. The grammar is wider than RFC 1951: how much wider is said by the `RfcFormat` rows. |
| `InflateSpec.InflateIsPrefixStable` | crates/inillucent-base/src/deflate.rs:75-96 | If a stream is accepted, the same stream followed by any bytes gives the same output. |
| `InflateSpec.NothingShortIsAccepted` | crates/inillucent-base/src/deflate.rs:75-96 | No accepted stream has fewer than ten bits, so none is shorter than two bytes. |
| `InflateSpec.CompressedSound` | crates/inillucent-base/src/deflate.rs:210-247 | Whatever a compressed block decodes to is the output of tokens that are encodable with its two codes and whose bits are exactly the ones consumed. |
| `InflateSpec.CompressedComplete` | crates/inillucent-base/src/deflate.rs:210-247 | Every encodable list of tokens that can be applied is decoded to its output, up to its end-of-block code. |
| `InflateSpec.StoredSound` | crates/inillucent-base/src/deflate.rs:191-202 | A stored block that is read had its padding, its length, the complement of its length and that many bytes. |
| `InflateSpec.StoredComplete` | crates/inillucent-base/src/deflate.rs:191-202 | Every valid stored block is read to exactly its bytes, from any bit position. |
| `InflateSpec.DynamicSound` | crates/inillucent-base/src/deflate.rs:266-309 | A dynamic header that is read is a header of the decoder's grammar (which admits more counts, runs and lists than section 3.2.7 does) whose bits were exactly those consumed. |
| `InflateSpec.DynamicComplete` | crates/inillucent-base/src/deflate.rs:266-309 | Every header of that grammar reads back as the two lists of lengths it declares, repeats that cross from one list to the other or past the end included. |
| `RfcFormat.OneTokenIsOutside` | crates/inillucent-base/src/deflate.rs:225-233 | Of all the lengths and distances the decoder takes from a code and its extra bits, one is not in its code's row of the tables of section 3.2.5 of RFC 1951: 258 from code 284 with 31. |
| `RfcFormat.OneSpelling` | crates/inillucent-base/src/deflate.rs:44-65 | By those tables no length or distance has two spellings. |
| `RfcFormat.FullTreesAlwaysDecode` | crates/inillucent-base/src/deflate.rs:593-653 | Among lists that are not over-subscribed, those whose codes take every word are exactly those with which any fifteen bits decode: the trees of section 3.2.1, in which every inner node has both its edges. |
| `RfcFormat.RfcHeadersExactly` | crates/inillucent-base/src/deflate.rs:266-309 | A header is one section 3.2.7 allows exactly when the decoder reads it, it codes the end of the block, and it passes the five checks the decoder leaves out: at most 286 literal codes; runs that end where the lists do; a full tree of code-length codes; a full tree of literal codes; and distance codes that are a full tree, a single code of one bit, or none. |
| `RfcFormat.RfcBlocksExactly` | crates/inillucent-base/src/deflate.rs:75-96 | A block, wherever it stands, is one the standard allows exactly when it is in the decoder's grammar, its header passes those checks if it is dynamic, and no match in it is 258 written with code 284. |
| `RfcFormat.RfcStreamsInflate` | crates/inillucent-base/src/deflate.rs:3-14 | Every stream RFC 1951 allows inflates to its data. |
| `RfcFormat.StreamsAreUnambiguous` | crates/inillucent-base/src/deflate.rs:75-96 | No bits stand for two different sequences of blocks. |
| `RfcFormat.AcceptedIsRfcExactly` | crates/inillucent-base/src/deflate.rs:3-14 | An accepted stream is one RFC 1951 allows exactly when every dynamic header in it passes those checks and no match in any of its blocks is 258 written with code 284. |
| `RfcFormat.SecondSpellingIsAccepted` | crates/inillucent-base/src/deflate.rs:225-229 | A literal and a match of 258 bytes written with code 284, in a fixed block: accepted, and no blocks the standard allows stand for the stream. |
| `RfcFormat.EmptyBlockIsAccepted` | crates/inillucent-base/src/deflate.rs:75-96 | Any readable header that the standard does not allow, with a code for the end of the block, is enough for an accepted stream that no allowed blocks stand for. |
| `RfcFormat.TooManyCodesAreAccepted` | crates/inillucent-base/src/deflate.rs:266-280 | Such a stream whose header fails the first check alone: 287 literal codes. |
| `RfcFormat.OvershootingRunsAreAccepted` | crates/inillucent-base/src/deflate.rs:280-309 | One that fails the second alone: a last run past the lengths declared. |
| `RfcFormat.IncompleteCodeLengthsAreAccepted` | crates/inillucent-base/src/deflate.rs:270-278 | One that fails the third alone: two code-length codes of two bits. |
| `RfcFormat.OverSubscribedListsAreAccepted` | crates/inillucent-base/src/deflate.rs:593-625 | One that fails the fourth alone, with more codes than there is room for: three of one bit. |
| `RfcFormat.IncompleteListsAreAccepted` | crates/inillucent-base/src/deflate.rs:593-625 | And with fewer: a single literal code of one bit. |
| `RfcFormat.LongSingleDistanceIsAccepted` | crates/inillucent-base/src/deflate.rs:266-309 | One that fails the fifth alone: a single distance code, of two bits. |
| `RfcFormat.SingleDistanceIsAllowed` | crates/inillucent-base/src/deflate.rs:266-309 | A single distance code of one bit is allowed. |
| `InflateSpec.ReadRunsSound` | crates/inillucent-base/src/deflate.rs:280-306 | The runs read apply one after another to give the lengths, and the first that reaches the total ends them. |
| `Inflater.InflateBytes` | crates/inillucent-base/src/deflate.rs:75-96 | The whole decoder, over mutable readers and tables, computes the parse of the input's bits; it terminates on every input because each block consumes bits. |
| `Inflater.ReadStored` | crates/inillucent-base/src/deflate.rs:191-202 | Agrees with the parse of a stored block, failures and unread bits included. |
| `Inflater.CopyMatch` | crates/inillucent-base/src/deflate.rs:238-245 | The byte-at-a-time loop builds the overlapping copy. |
| `Inflater.ReadMatch` | crates/inillucent-base/src/deflate.rs:225-245 | Agrees with the parse of one match, and refuses a length or distance code that does not exist and a distance before the output. |
| `Inflater.ReadCompressed` | crates/inillucent-base/src/deflate.rs:210-247 | Agrees with the parse of a compressed block for any two described tables. |
| `Inflater.FixedTrees` | crates/inillucent-base/src/deflate.rs:250-261 | The two tables built describe the fixed lengths of section 3.2.6. |
| `Inflater.ReadCodeLengths` | crates/inillucent-base/src/deflate.rs:270-278 | Reads three bits for each of the declared lengths and puts each where the permuted order says. |
| `Inflater.ReadRun` | crates/inillucent-base/src/deflate.rs:282-304 | Agrees with the parse of one run: a length, a repeat of the previous, or a run of zeros; a repeat with nothing before it is refused. |
| `Inflater.DynamicTrees` | crates/inillucent-base/src/deflate.rs:266-309 | The two tables describe exactly the two lists of lengths the header declares. |
| `Deflater.Chains.Insert` | crates/inillucent-base/src/deflate.rs:414-426 | Records a position at its bucket's head, with the old head as its predecessor, and changes nothing else; near the end of the input it changes nothing at all. |
| `Deflater.Chains.Longest` | crates/inillucent-base/src/deflate.rs:432-462 | Whatever the chains hold, a match returned is a true one (at most 258 bytes, at a distance of 1 to 32768, every byte compared), at least as long as every candidate among the first 32 the chain offers, and longer than each one offered before it. |
| `Deflater.CommonRun` | crates/inillucent-base/src/deflate.rs:445-451 | The comparison loop finds exactly how far two positions agree, up to 258 bytes and the input's end. |
| `Deflater.AgreementAgrees` | crates/inillucent-base/src/deflate.rs:445-451 | Over that run each byte equals the one at the distance before it, even where the run overlaps its own start. |
| `Deflater.FixedCodeIsCanonical` | crates/inillucent-base/src/deflate.rs:359-372 | The four ranges written are exactly the canonical codes of the 288 fixed lengths. |
| `Deflater.DistanceCodeIsCanonical` | crates/inillucent-base/src/deflate.rs:343-344 | Five bits of the code, highest first, are the canonical code of the fixed distances. |
| `Deflater.WriteFixed` | crates/inillucent-base/src/deflate.rs:359-372 | Appends a symbol's canonical fixed code. |
| `Deflater.LengthCode` | crates/inillucent-base/src/deflate.rs:325-330 | The scan of the table finds the code whose range holds the length, which the decoder's base and extra bits give back. |
| `Deflater.DistanceCode` | crates/inillucent-base/src/deflate.rs:337-342 | The same for distances. |
| `Deflater.LengthCodesLeaveNoGap` | crates/inillucent-base/src/deflate.rs:44-53 | Consecutive length codes' ranges cover every length from 3 to 258. |
| `Deflater.DistanceCodesLeaveNoGap` | crates/inillucent-base/src/deflate.rs:55-65 | Consecutive distance codes' ranges cover every distance from 1 to 32768. |
| `Deflater.WriteMatch` | crates/inillucent-base/src/deflate.rs:324-350 | Appends the bits of a token that decodes to exactly this length and distance: at most nine a byte it covers and 31 in all, 21 from at most 32 bytes back, and 16 for a longest match from there. |
| `Deflater.MatchContinues` | crates/inillucent-base/src/deflate.rs:112-119 | Applying a true match to the input's prefix gives the longer prefix, by the decoder's overlapping copy. |
| `Deflater.Chains.RepeatIsFound` | crates/inillucent-base/src/deflate.rs:432-462 | Where the input goes on repeating itself at a distance of at most 32, the match found is as long as a match there can be and no further back than that. |
| `Deflater.DeflateBytes` | crates/inillucent-base/src/deflate.rs:101-127 | The stream is one valid fixed block whose output is the input, padded with zeros to bytes. It takes at most (9n + 17) / 8 bytes; with no triple repeated within 32768 bytes exactly what literals cost, n + 2 at least; and where the input repeats itself, at a distance of at most 32, from place q on, what comes before q, 22 bits to lead in, 16 for each 258 bytes, and 21 for the end. |
| `Deflater.DeflateRepeats` | crates/inillucent-base/src/deflate.rs:14-17 | The stream is no larger than an input that repeats itself, at a distance of at most 32, from some place q on for about an eighth of q and eight bytes more. |
| `Deflater.DeflateEqual` | crates/inillucent-base/src/deflate.rs:14-17 | Equal bytes are made larger if and only if there are fewer than four of them. |
| `Deflater.DeflateFew` | crates/inillucent-base/src/deflate.rs:14-17 | Every input of three bytes or fewer, the empty one included, is made larger, by exactly this much: "larger on nothing" fails. |
| `Zlib.Adler32` | crates/inillucent-base/src/deflate.rs:177-185 | The reduced running sums are the sums of section 8.2 of RFC 1950 reduced once. |
| `Zlib.AdlerSeesOneByte` | crates/inillucent-base/src/deflate.rs:177-185 | Changing one byte of a buffer always changes the checksum. |
| `Zlib.StreamInflates` | crates/inillucent-base/src/deflate.rs:75-96 | A valid stream of blocks inflates to its output, whatever bytes follow it. |
| `Zlib.RoundTrip` | crates/inillucent-base/src/deflate.rs:75-127 | Inflating what was deflated gives the data back, for every byte string, within the expansion bound. |
| `Zlib.BigEndianRoundTrip` | crates/inillucent-base/src/deflate.rs:150-155 | The four tail bytes give back the checksum they were written from. |
| `Zlib.AcceptedBodyIsLong` | crates/inillucent-base/src/deflate.rs:145-152 | An accepted body has at least two bytes, so the four-byte tail copied is always there. |
| `Zlib.Decompress` | crates/inillucent-base/src/deflate.rs:132-159 | Header checks in order, then the body, then the checksum when the input is longer than six bytes. |
| `Zlib.Compress` | crates/inillucent-base/src/deflate.rs:164-172 | The header, a body that inflates to the input whatever follows it, and the checksum, highest byte first. |
| `Zlib.WrappedUnwraps` | crates/inillucent-base/src/deflate.rs:132-159 | A wrapped body is accepted exactly when its last four bytes are the data's checksum. |
| `Zlib.CutShortExactly` | crates/inillucent-base/src/deflate.rs:145-158 | An accepted body under a good header, whatever part of a checksum or other bytes follow it, is accepted if and only if at most four bytes come after the header or the last four are the data's checksum; otherwise it is refused for its checksum. |
| `Zlib.CutShortIsRefused` | crates/inillucent-base/src/deflate.rs:145-158 | Three zero bytes, compressed and cut just before the checksum, are refused: the body's own last four bytes are taken for it, though lines 147-149 say such a stream is reported. |
| `Zlib.ZlibRoundTrip` | crates/inillucent-base/src/deflate.rs:132-172 | Decompressing what was compressed gives the data back; with any other last four bytes it is refused. |
| `Crc32.BuildByteTable` | crates/inillucent-base/src/checksum.rs:99-117 | Entry i is eight steps of the bit-serial register on i. |
| `Crc32.BuildSlice` | crates/inillucent-base/src/checksum.rs:131-145 | Table n is n + 2 bytes' worth of steps on a byte. |
| `Crc32.BuildTables` | crates/inillucent-base/src/checksum.rs:90-145 | All eight tables are what the register gives. |
| `Crc32.LookupAndShift` | crates/inillucent-base/src/checksum.rs:201-225 | A lookup and a shift are eight steps of the register. |
| `Crc32.StepsLinear` | crates/inillucent-base/src/checksum.rs:99-117 | Any number of steps is linear over exclusive or. |
| `Crc32.StepsInjective` | crates/inillucent-base/src/checksum.rs:99-117 | Any number of steps is one-to-one on 32-bit words. |
| `Crc32.EightBytes` | crates/inillucent-base/src/checksum.rs:204-220 | The eight lookups of one turn advance the register by the eight bytes, one bit at a time. |
| `Crc32.Crc32Continue` | crates/inillucent-base/src/checksum.rs:201-225 | Slice-by-eight gives the byte-at-a-time answer for every previous value and every length. |
| `Crc32.CrcOfPieces` | crates/inillucent-base/src/checksum.rs:174-201 | Continuing over any split equals one call on the whole. |
| `Crc32.RegisterIsSerial` | crates/inillucent-base/src/checksum.rs:227-238 | The byte-at-a-time register is the one-bit-at-a-time register over the message's bits, lowest first. |
| `Crc32.BurstIsDetected` | crates/inillucent-base/src/checksum.rs:201-225 | Two messages that differ only inside some 32 consecutive bits, on any boundary, never have the same CRC. |
| `Crc32.FourBytesAreDetected` | crates/inillucent-base/src/checksum.rs:201-225 | Two messages that differ only inside four consecutive bytes never have the same CRC. |
| `WalChecksum.Checksum.Update` | crates/inillucent-base/src/checksum.rs:45-58 | Folds whole blocks in; a partial block is refused and leaves both sums as they were. |
| `WalChecksum.Checksum.Extended` | crates/inillucent-base/src/checksum.rs:61-65 | The same from a copy, the original left alone. |
| `WalChecksum.FoldAllConcat` | crates/inillucent-base/src/checksum.rs:45-58 | Updating with one piece and then another is updating with both, in either byte order. |
| `WalChecksum.FoldAllInjective` | crates/inillucent-base/src/checksum.rs:45-58 | The same data from two different states leaves them different. |
| `WalChecksum.BlockChangeIsSeen` | crates/inillucent-base/src/checksum.rs:45-84 | Replacing any one 8-byte block always changes the result. |
| `Sha256.BuildSchedule` | crates/inillucent-base/src/hash.rs:148-172 | The filled array is the message schedule of section 6.2.2 of FIPS 180-4. |
| `Sha256.Compress` | crates/inillucent-base/src/hash.rs:147-198 | The loop over eight rotating variables is the standard's 64 rounds on one block. |
| `Sha256.HashBlocksConcat` | crates/inillucent-base/src/hash.rs:67-90 | Hashing blocks in two parts is hashing them in one. |
| `Sha256.ZeroCountIsLeast` | crates/inillucent-base/src/hash.rs:96-98 | The padding loop stops at the first byte count that leaves room for the length. |
| `Sha256.NoWrapBelowTheStandardsLimit` | crates/inillucent-base/src/hash.rs:68-94 | Below 2^61 bytes the wrapping length is the message's own. |
| `Sha256.Hasher.Update` | crates/inillucent-base/src/hash.rs:67-90 | Takes in exactly the bytes given, keeping the hash value that of the whole blocks and the buffer the rest. |
| `Sha256.Hasher.Finish` | crates/inillucent-base/src/hash.rs:93-110 | Pads to whole blocks and returns the digest of everything taken in. |
| `Sha256.HashPieces` | crates/inillucent-base/src/hash.rs:67-130 | For every way of cutting a message into pieces the digest is the one-shot digest of the standard, for every message it defines one for; beyond that, the digest with the length wrapped. |
| `Sha3.ThetaInPlace` | crates/inillucent-base/src/sha3.rs:226-245 | The column loops are theta of section 3.2.1 of FIPS 202. |
| `Sha3.RotationsAreOffsets` | crates/inillucent-base/src/sha3.rs:48-51 | The table of rotations is rho's offsets (t + 1)(t + 2) / 2 along its walk. |
| `Sha3.PiLanesAreTheWalk` | crates/inillucent-base/src/sha3.rs:53-56 | The table of lanes is rho's walk, one step ahead. |
| `Sha3.WalkNeverRepeats` | crates/inillucent-base/src/sha3.rs:53-56 | The walk visits no lane twice in 24 steps: the table is one cycle. |
| `Sha3.WalkReaches` | crates/inillucent-base/src/sha3.rs:53-56 | The walk visits every lane but the first. |
| `Sha3.PiGoesBack` | crates/inillucent-base/src/sha3.rs:53-56 | Pi takes each lane of the walk from the lane before it. |
| `Sha3.RhoAndPiInPlace` | crates/inillucent-base/src/sha3.rs:251-262 | One carried lane walked round the cycle is the simultaneous rho and pi of sections 3.2.2 and 3.2.3. |
| `Sha3.ChiInPlace` | crates/inillucent-base/src/sha3.rs:268-283 | The row loops are chi of section 3.2.4. |
| `Sha3.KeccakF` | crates/inillucent-base/src/sha3.rs:206-215 | The 24 rounds in place are the permutation. |
| `Sha3.RoundConstantsAreTheStandards` | crates/inillucent-base/src/sha3.rs:20-46 | Every constant of the table is the one the shift register of section 3.2.5 gives. |
| `Sha3.Absorb` | crates/inillucent-base/src/sha3.rs:185-193 | Exclusive-ors a block, filled up with the capacity's zeros, into the state, lowest byte first. |
| `Sha3.PaddedIsWhole` | crates/inillucent-base/src/sha3.rs:122-138 | Every padded message is whole blocks. |
| `Sha3.PaddingIsTheStandards` | crates/inillucent-base/src/sha3.rs:127-136 | The padding bytes are, bit for bit, the suffix 01 and pad10*1, also where both ends share a byte. |
| `Sha3.AbsorbOneMore` | crates/inillucent-base/src/sha3.rs:105-119 | Absorbing one more block is absorbing it last. |
| `Sha3.SqueezeOut` | crates/inillucent-base/src/sha3.rs:139-159 | The labelled loop reads out the state's bytes, permuting at each block's end, for any output length. |
| `Sha3.Sponge.Update` | crates/inillucent-base/src/sha3.rs:105-119 | Takes in exactly the bytes given, every whole block absorbed and the rest kept. |
| `Sha3.Sponge.Finish` | crates/inillucent-base/src/sha3.rs:122-160 | The digest of everything taken in, padded. |
| `Sha3.LeftIsTheRemainder` | crates/inillucent-base/src/sha3.rs:127-130 | The bytes past the last whole block are the length modulo the rate. |
| `Sha3.FeedPieces` | crates/inillucent-base/src/sha3.rs:105-170 | For all four widths and every way of cutting a message into pieces the digest is that of section 6.1. |
| `U64.MulInjective` | crates/inillucent-base/src/table_hash.rs:100-103 | Multiplying by a number with an inverse modulo 2^64 is one-to-one. |
| `U64.RotateLeftInjective` | crates/inillucent-base/src/table_hash.rs:100-103 | Rotating is one-to-one. |
| `U64.XorShrInjective` | crates/inillucent-base/src/rng.rs:85-91 | Exclusive-oring a word with its right shift is one-to-one, for every shift but zero. |
| `U64.XorShlInjective` | crates/inillucent-base/src/rng.rs:39-42 | The same for a left shift. |
| `TableHash.Hasher.Fold` | crates/inillucent-base/src/table_hash.rs:100-103 | One fold of the accumulator. |
| `TableHash.Hasher.Write` | crates/inillucent-base/src/table_hash.rs:120-136 | Folds eight bytes at a time, the zero-extended rest, and the length. |
| `TableHash.FoldSeesWord` | crates/inillucent-base/src/table_hash.rs:100-103 | From one state, two words that fold alike are the same word. |
| `TableHash.FoldKeepsStates` | crates/inillucent-base/src/table_hash.rs:100-103 | Two states that one word folds alike are the same state. |
| `TableHash.OneChunkNeverCollides` | crates/inillucent-base/src/table_hash.rs:120-136 | Two keys of one length that differ in one chunk at most, padded rest included, collide only when they are equal. |
| `TableHash.ShortKeysNeverCollide` | crates/inillucent-base/src/table_hash.rs:120-136 | Two different keys of one length of at most eight bytes never collide. |
| `TableHash.LengthTellsPaddingApart` | crates/inillucent-base/src/table_hash.rs:107-117 | A key and the same key with a zero byte more fold alike before the length and differ after it. |
| `TableHash.ZeroIsAFixedPoint` | crates/inillucent-base/src/table_hash.rs:82-92 | Zero stays at zero under zero words, and the start is not zero. |
| `TableHash.NothingElseBecomesZero` | crates/inillucent-base/src/table_hash.rs:82-92 | From any other state no zero word reaches zero. |
| `Rng.SplitMix64` | crates/inillucent-base/src/rng.rs:85-91 | Advances the counter and returns its mix. |
| `Rng.MixedInjective` | crates/inillucent-base/src/rng.rs:85-91 | The mixer is one-to-one on 64-bit words. |
| `Rng.SeededIsNotZero` | crates/inillucent-base/src/rng.rs:26-33 | Every seed gives a state that is not all zero: neighbouring words always differ. |
| `Rng.SeedsDiffer` | crates/inillucent-base/src/rng.rs:26-33 | Different seeds give different states. |
| `Rng.NextInjective` | crates/inillucent-base/src/rng.rs:36-44 | The state map is one-to-one. |
| `Rng.NeverZero` | crates/inillucent-base/src/rng.rs:21-44 | No run from any seed ever reaches the zero state. |
| `Rng.Generator.NextU64` | crates/inillucent-base/src/rng.rs:36-44 | The next state and output of the generator. |
| `Rng.Generator.Below` | crates/inillucent-base/src/rng.rs:55-61 | Below any positive bound; zero, and no draw taken, when the bound is zero. |
| `Rng.BelowReachesEverything` | crates/inillucent-base/src/rng.rs:55-61 | Every number below the bound is reached by some 64-bit draw. |
| `Varint.ComputeEncodedLen` | crates/inillucent-base/src/varint.rs:31-42 | The loop finds the least number of seven-bit groups, or nine past 56 bits. |
| `Varint.SevenBitLenIsLeast` | crates/inillucent-base/src/varint.rs:31-42 | No fewer groups hold the value. |
| `Varint.Encode` | crates/inillucent-base/src/varint.rs:48-71 | Fails exactly when the buffer is too short, writing nothing; otherwise writes the encoding and nothing past it. |
| `Varint.WriteNineByteForm` | crates/inillucent-base/src/varint.rs:75-86 | Eight continued groups of the high 56 bits and then the low byte. |
| `Varint.DecodeBytes` | crates/inillucent-base/src/varint.rs:92-113 | The accumulating loop decodes what the format says, errors included. |
| `Varint.DecodeInvertsEncode` | crates/inillucent-base/src/varint.rs:48-113 | An encoding followed by any bytes decodes to its value and its length. |
| `Varint.PrefixesAreRefused` | crates/inillucent-base/src/varint.rs:92-113 | Every proper prefix of an encoding is an error. |
| `Varint.DecodedIsEncoding` | crates/inillucent-base/src/varint.rs:92-113 | Bytes that decode to a value are at least as many as its encoding, and if as many they are its encoding. |
| `Varint.LongerSpellingsAreAccepted` | crates/inillucent-base/src/varint.rs:92-113 | A longer spelling does decode: two bytes, the first an empty continued group, give a value whose encoding is one byte. |
| `Allocator.BlockCoversRequest` | crates/inillucent-alloc/src/lib.rs:195-214 | A class's block is at least as large and as aligned as any request in it, less than a grain larger, and can hold a link. |
| `Allocator.BuildCaps` | crates/inillucent-alloc/src/lib.rs:146-166 | The table holds every class's cap. |
| `Allocator.CapIsTheMost` | crates/inillucent-alloc/src/lib.rs:117-166 | A cap is the most blocks within both 64 KiB and 1024, and never below sixteen, so the floor of one is never what decides. |
| `Allocator.AllocKeeps` | crates/inillucent-alloc/src/lib.rs:242-276 | An allocation on any thread keeps the invariant: every block owed to the system is live or on one list, never both, every list within its cap, every block made with the layout its place implies, and no two blocks share a byte. |
| `Allocator.FreeKeeps` | crates/inillucent-alloc/src/lib.rs:285-318 | So does freeing, on whichever thread. |
| `Allocator.ReallocKeeps` | crates/inillucent-alloc/src/lib.rs:326-351 | So does a resize, whichever way it goes. |
| `Allocator.InvariantInEveryRun` | crates/inillucent-alloc/src/lib.rs:242-351 | The invariant holds after every run of calls on any number of threads, some of whose storage may go away. |
| `Allocator.EveryBlockIsInOnePlace` | crates/inillucent-alloc/src/lib.rs:242-318 | Every block not returned is live or on a list and not both, and no block stands twice on any lists: lists have no cycles and share nothing. |
| `Allocator.RetentionIsBounded` | crates/inillucent-alloc/src/lib.rs:117-166 | A thread keeps at most 64 KiB and 1024 blocks of a class, all made with its layout. |
| `Footprint.ThreadRetentionIsBounded` | crates/inillucent-alloc/src/lib.rs:96-117 | A thread keeps at most 64 KiB times the number of classes. |
| `Footprint.RetentionStaysWithinExactly` | crates/inillucent-alloc/src/lib.rs:96-117 | For any set of classes and any limit: every allowed run that asks only for layouts of those classes leaves a thread keeping at most that much if and only if the classes' caps come to no more. One direction is an invariant of runs, the other a run that fills every list. |
| `Footprint.MoreThanFourMebibytesAreKept` | crates/inillucent-alloc/src/lib.rs:111-117 | An allowed run after which one thread keeps more than three times the 4 MiB the comment gives. |
| `Footprint.SixtyFourClassesFit` | crates/inillucent-alloc/src/lib.rs:111-117 | A program that stays within 64 classes meets the comment's 4 MiB on every thread. |
| `Footprint.StrandedForGood` | crates/inillucent-alloc/src/lib.rs:246-276 | Once a thread's heads are gone its lists never change in any later run: their blocks stay made and are never handed out. |
| `Footprint.StrandingHasNoBound` | crates/inillucent-alloc/src/lib.rs:3-9 | As threads come and go nothing but the address space bounds what is stranded: past any number of bytes there is an allowed run after which the program holds nothing and more than that is owed, all on the lists of threads that are gone. |
| `Footprint.FootprintIsBounded` | crates/inillucent-alloc/src/lib.rs:96-101 | After every run of n threads, whether or not their storage is gone, what the system is owed is what the program holds and at most n times 16 MiB: bounded by the classes and the threads rather than by the workload. |
| `Allocator.AllocHandsOutFreshMemory` | crates/inillucent-alloc/src/lib.rs:242-276 | A block handed out was not live, covers the request's size and alignment, and is the only change to what is live, and its bytes are apart from those of every live block; null comes only from the system and changes nothing. |
| `Allocator.LiveBlockFits` | crates/inillucent-alloc/src/lib.rs:285-318 | A live block's system layout is the one its request's layout gives back when it is freed. |
| `Allocator.LiveBlocksAreApart` | crates/inillucent-alloc/src/lib.rs:232-276 | No byte is in two live blocks, nor in a live block and a free one: no double hand-out, in bytes. |
| `Allocator.FreedIsHandedBack` | crates/inillucent-alloc/src/lib.rs:285-318 | A block that is kept is the next one its class hands out on that thread, and the lists are then as before. |
| `Allocator.LinkComesBack` | crates/inillucent-alloc/src/lib.rs:258-300 | The pointer written in a block's first eight bytes is the pointer read back, and the rest of the block is untouched. |
| `Allocator.NextHead` | crates/inillucent-alloc/src/lib.rs:256-259 | The link in the block at a list's head is the head the list is left with. |
| `Allocator.Pooled.constructor` | crates/inillucent-alloc/src/lib.rs:181-186 | Starts with nothing made and every list empty. |
| `Allocator.Pooled.Alloc` | crates/inillucent-alloc/src/lib.rs:242-276 | Over real heads, counts and links in memory, does what the abstract allocation does, and touches no block's bytes. |
| `Allocator.Pooled.TakeHead` | crates/inillucent-alloc/src/lib.rs:249-268 | Unlinks the block at the head of a list and counts one less, if there is one. |
| `Allocator.Pooled.Dealloc` | crates/inillucent-alloc/src/lib.rs:285-318 | Does what the abstract free does, returns a block only under the layout it was made with, and touches no other block's bytes. |
| `Allocator.Pooled.KeepBlock` | crates/inillucent-alloc/src/lib.rs:290-314 | Links the block in and counts one more, unless the class is full or the heads are gone, and then changes nothing. |
| `Allocator.Pooled.Realloc` | crates/inillucent-alloc/src/lib.rs:326-351 | The block it was given if and only if both sizes have one class, with memory unchanged; otherwise a new block with the first min(old, new) bytes of the old one, which is freed; on failure null and nothing changed. No other live block's bytes change. |
| `Allocator.Pooled.Store` | crates/inillucent-alloc/src/lib.rs:236-241 | The program's writes to a live block disturb no list. |
| `Allocator.Pooled.StorageGone` | crates/inillucent-alloc/src/lib.rs:246-248 | A thread whose heads or counts are gone leaves the invariant standing. |
| `Embedding.TruncateToBound` | crates/inillucent-bench/src/llamacpp.rs:255-286 | The five rounds of cutting, tokenizer failures included. |
| `Embedding.WhatIsSentFits` | crates/inillucent-bench/src/llamacpp.rs:233-286 | Whatever the tokenizer does, a text that is sent is within the bound, and one that was within it is sent as it was. |
| `Embedding.Prepare` | crates/inillucent-bench/src/llamacpp.rs:302-328 | Each text as it was, or its cut if it is over the bound; a failure is that of the first text that cannot be cut. |
| `Embedding.NextBatch` | crates/inillucent-bench/src/llamacpp.rs:335-349 | A batch is one text or within both limits, and the next text would not have fitted. |
| `Embedding.MakeBatches` | crates/inillucent-bench/src/llamacpp.rs:330-352 | The batches are consecutive, not empty, cover every text, and each is one text or within both limits and as full as they allow. |
| `Embedding.PlanBatches` | crates/inillucent-bench/src/llamacpp.rs:330-352 | Of such a partition every batch is not empty, starts where the one before it ends, is one text or within both limits, and is as full as they allow; the last ends at the last text. |
| `Embedding.PlanIsUnique` | crates/inillucent-bench/src/llamacpp.rs:330-352 | There is only one such partition. |
| `Embedding.Request` | crates/inillucent-bench/src/llamacpp.rs:427-491 | The reply's rows are put where their indices say; the first bad row, a wrong count or an empty place is the failure reported. |
| `Embedding.AnswerIsAPermutation` | crates/inillucent-bench/src/llamacpp.rs:443-489 | A reply is accepted exactly when its rows are well formed and their indices are a permutation of the places, and then every vector is in its place; with vectors of width zero only an empty request is accepted. |
| `Embedding.Pigeonhole` | crates/inillucent-bench/src/llamacpp.rs:486-489 | As many indices as places cover every place exactly when none comes twice. |
| `Embedding.LowestFault` | crates/inillucent-bench/src/llamacpp.rs:402-416 | The failure reported is that of the lowest batch that has one. |
| `Embedding.InvariantInEveryRun` | crates/inillucent-bench/src/llamacpp.rs:374-400 | In every interleaving each claimed batch is with one worker or stored, each slot holds its own batch's answer, and no batch is asked for twice. |
| `Embedding.RunsEnd` | crates/inillucent-bench/src/llamacpp.rs:380-400 | No run is longer than three actions a batch and one a worker; a shorter one can go on; one of that length has every worker gone. |
| `Embedding.RunsComplete` | crates/inillucent-bench/src/llamacpp.rs:380-400 | Every run can be brought to its end. |
| `Embedding.FinishedCrew` | crates/inillucent-bench/src/llamacpp.rs:380-400 | When every worker is gone every slot holds its batch's answer, and every batch was asked for exactly once. |
| `Embedding.Collect` | crates/inillucent-bench/src/llamacpp.rs:401-416 | The slots' answers in batch order, or the fault of the lowest; a slot nobody filled is a fault. |
| `Embedding.EmbedInOrder` | crates/inillucent-bench/src/llamacpp.rs:354-368 | One request after another gives the answers in order, or the first failure, and the count is checked. |
| `Embedding.TokenCounts` | crates/inillucent-bench/src/llamacpp.rs:227-239 | Each text's tokens and a margin of two, or a failure if any text cannot be tokenized. |
| `Embedding.RequestsFit` | crates/inillucent-bench/src/llamacpp.rs:12-18 | Every batch of a plan, as prepared, has every text within the model's bound, and is one text or within both the text limit and the token budget in the tokens the tokenizer finds in it; when the bound is within the budget, so is every request's token sum. |
| `Embedding.SurelyTakenExactly` | crates/inillucent-bench/src/llamacpp.rs:182-189 | Whatever a server within two tokens of the tokenizer counts, it takes a request exactly when every text is two tokens short of the bound or more and, of several texts, the tokens and two for each text are within the budget. |
| `Embedding.ServerTakesExactly` | crates/inillucent-bench/src/llamacpp.rs:232-238 | Of the requests of a plan: such a server is sure to take one exactly when none of its texts, as sent, is within a token of the bound. |
| `Embedding.CloseTextsAreSentUncut` | crates/inillucent-bench/src/llamacpp.rs:263-268 | A text of the bound's tokens, or one fewer, is counted over the bound, returned uncut, and may be over it at the server. |
| `Embedding.SchedulesExist` | crates/inillucent-bench/src/llamacpp.rs:377-400 | The workers have some order of acting that brings every number of batches to its end. |
| `Embedding.EmbedPrefixed` | crates/inillucent-bench/src/llamacpp.rs:289-424 | The whole call: nothing for no texts; the tokenizer's failure or that of the first text that cannot be cut, before anything is sent; otherwise the answers, in order, to requests that all fit, one vector a text, or the first failure among them; with any number of requests in flight under any schedule. |
| `Embedding.OutcomeIsUnique` | crates/inillucent-bench/src/llamacpp.rs:370-424 | What a call returns is decided by the texts, the limits, the tokenizer and the server alone: one request at a time and several in flight give the same, failures and empty input included. |
| `Embedding.PlanIsInRange` | crates/inillucent-bench/src/llamacpp.rs:354-358 | Every batch is a range of the prepared texts. |
| `Embedding.Act` | crates/inillucent-bench/src/llamacpp.rs:382-398 | One action of one worker on the shared counter, its own state and its slot. |
| `Embedding.EmbedInFlight` | crates/inillucent-bench/src/llamacpp.rs:371-424 | Under every schedule that runs to its end, any number of workers give exactly what the sequential path gives, failure included. |
| `Embedding.VectorsLineUp` | crates/inillucent-bench/src/llamacpp.rs:402-423 | Each text's vector stands where the text does. |
| `Embedding.OneVectorEach` | crates/inillucent-bench/src/llamacpp.rs:417-422 | When the tokenizer counted every text the final count check never fails. |
| `Budget.Thread.Arm` | crates/inillucent-base/src/budget.rs:193-199 | Clears the flag, arms a fresh budget and keeps what was armed before in the guard. |
| `Budget.Thread.ArmAsItStands` | crates/inillucent-base/src/budget.rs:215-230 | The same without clearing the flag; a window the clock cannot name is no deadline. |
| `Budget.Guard.Drop` | crates/inillucent-base/src/budget.rs:179-188 | Puts back what was armed before. |
| `Budget.Thread.Check` | crates/inillucent-base/src/budget.rs:242-262 | Refuses a cancelled request first, then one past its deadline. |
| `Budget.Thread.Spend` | crates/inillucent-base/src/budget.rs:268-289 | Charges both counters, stopping at the largest number, and then refuses past a limit, rows first. |
| `Budget.Thread.Materialise` | crates/inillucent-base/src/budget.rs:311-333 | Refuses a stopped request uncharged; otherwise charges bytes only. |
| `BudgetRuns.DropRestores` | crates/inillucent-base/src/budget.rs:166-230 | Arming, any balanced calls, and dropping leave the caller's counters, limits, deadline and guards as they were, and which flag is its; whether that flag is still raised is another matter, since `arm` lowers it. |
| `BudgetRuns.FlagSurvives` | crates/inillucent-base/src/budget.rs:190-230 | After any calls a flag is raised exactly when no `arm` has named it since it was last raised; arming it as it stands lowers nothing. |
| `BudgetRuns.CancellationSurvives` | crates/inillucent-base/src/budget.rs:190-262 | After any balanced calls the caller is found cancelled exactly when no `arm` among them has named its flag since that flag was last raised. |
| `BudgetRuns.NestedArmLosesCancellation` | drivers/inillucent-driver/src/lib.rs:1027-1033 | A nested statement armed on its caller's flag, as the driver arms every statement of a database, wipes a cancellation that has already arrived. |
| `BudgetRuns.CountersAreSums` | crates/inillucent-base/src/budget.rs:268-333 | A budget's limits never change and its counters are the saturating sums of its own charges, whatever nested guards do meanwhile. |
| `BudgetRuns.RefusedExactlyPastALimit` | crates/inillucent-base/src/budget.rs:268-289 | A charge is refused exactly when it takes the running total past a limit, and the failure names that limit and total. |
| `BudgetRuns.RefusedForGood` | crates/inillucent-base/src/budget.rs:268-289 | After a refusal every later charge under the same guard is refused. |
| `BudgetRuns.HoldingCountsNoRows` | crates/inillucent-base/src/budget.rs:291-333 | Over any run in which no rows are charged to it, whatever it materialises and whatever its nested guards spend, a budget's row counter stays as it was. |
| `BudgetNesting.NestedRowsAreNotTheCallers` | crates/inillucent-base/src/budget.rs:166-173 | A caller allowed one row takes any number under a guard of its own, unrefused and uncounted: a nested request runs beside its caller, though lines 20-22 and 170-172 say inside it. |
| `BudgetNesting.BelowIsWithin` | crates/inillucent-base/src/budget.rs:166-289 | Over any accepted run, at all depths, what is spent under nested guards and what those still armed have left come to no more than everything that was armed. |
| `BudgetNesting.StaysWithinExactly` | crates/inillucent-base/src/budget.rs:20-22 | For rows and for bytes, any guards beside and inside one another, and any amount the caller itself is charged: every accepted run with those guards spends no more at all depths together than the caller may, if and only if the limits of all the guards together, siblings and deeper ones alike, fit in what the caller has left. |
| `BudgetNesting.NeverWidensExactly` | crates/inillucent-base/src/budget.rs:20-22 | Whatever the caller is charged, nested guards never widen its budget exactly when every one of them allows nothing. |
| `BudgetNesting.DeeperRowsEscape` | crates/inillucent-base/src/budget.rs:20-22 | Any number of rows under a caller allowed ten, through an unlimited guard inside one that allows none. |
| `BudgetNesting.SiblingsAddUp` | crates/inillucent-base/src/budget.rs:20-22 | Twenty rows under a caller allowed ten, through two guards one after the other with its own limit. |
| `BudgetNesting.BytesEscape` | crates/inillucent-base/src/budget.rs:20-22 | Bytes escape in the same way. |
| `BudgetNesting.StopsByExactly` | crates/inillucent-base/src/budget.rs:215-262 | A run is stopped by its caller's deadline at every point exactly when every guard in it, at any depth, is armed with a deadline no later. |
| `BudgetNesting.NestedHidesTheDeadline` | crates/inillucent-base/src/budget.rs:215-262 | A caller past its deadline is not refused while a guard without one is armed, and is again when that is dropped. |
| `Budget.KindOfDetail` | crates/inillucent-base/src/budget.rs:360-397 | The budget that ran out is read back from a failure's detail, whatever its sentence says. |
| `CorpusCache.LoadOfSave` | crates/inillucent-bench/src/corpus.rs:341-379 | What was saved loads, whatever follows it in the file: every stored field, version 4, and the width and count of the data; the header alone reads the same. |
| `CorpusCache.RoundTripExactly` | crates/inillucent-bench/src/corpus.rs:341-379 | A corpus comes back unchanged exactly when its header already agrees with its data and no chunk has the least time of all or a field that is not stored. |
| `CorpusCache.TooFewVectorsDoNotLoad` | crates/inillucent-bench/src/corpus.rs:353-379 | With fewer vectors than chunks the saved file does not load. |
| `CorpusDamage.PrefixesDoNotLoad` | crates/inillucent-bench/src/corpus.rs:448-567 | No proper prefix of a saved file, of either version, loads: each comes to its end too soon. |
| `CorpusDamage.HeaderOfAPrefix` | crates/inillucent-bench/src/corpus.rs:388-437 | The header is read from a cut file exactly when all its bytes are there, and then it is the whole file's. |
| `CorpusDamage.SurplusIsReadOn` | crates/inillucent-bench/src/corpus.rs:353-377 | Of a vector wider than declared the values too many are read as the beginning of what follows it. |
| `CorpusDamage.ShortageIsTaken` | crates/inillucent-bench/src/corpus.rs:353-377 | Of a narrower one the values missing are taken from what follows it. |
| `CorpusDamage.LastVectorDecides` | crates/inillucent-bench/src/corpus.rs:353-379 | With a last vector of another width the file loads exactly when it is not too narrow, and one too wide comes back without its last values. |
| `CorpusCache.LoadOfLegacy` | crates/inillucent-bench/src/corpus.rs:448-565 | A version 3 file loads under the header that claims only its width and count. |
| `CorpusCache.ChunkBack` | crates/inillucent-bench/src/corpus.rs:353-377 | A chunk's bytes followed by anything read back as the chunk's stored fields and its vector, leaving what followed. |
| `CorpusCache.OriginBack` | crates/inillucent-bench/src/corpus.rs:346-351 | The header's fields read back, with the width and count read before them. |
| `CorpusCache.StrBack` | crates/inillucent-bench/src/corpus.rs:298-311 | A string's length and bytes read back as the string. |
| `CorpusCache.OptBack` | crates/inillucent-bench/src/corpus.rs:313-334 | An optional string reads back. |
| `CorpusCache.I64Back` | crates/inillucent-bench/src/corpus.rs:367-367 | A signed 64-bit number reads back. |
| `CorpusCache.SaveCache` | crates/inillucent-bench/src/corpus.rs:341-379 | Writes exactly the file the format defines, vectors past the chunks not written. |
| `CorpusCache.Sink.WriteChunk` | crates/inillucent-bench/src/corpus.rs:353-377 | Appends exactly one chunk's and vector's bytes. |
| `CorpusCache.Source.ReadString` | crates/inillucent-bench/src/corpus.rs:305-311 | Reads a string, or reports a short file or bytes that are not UTF-8. |
| `CorpusCache.Source.ReadChunk` | crates/inillucent-bench/src/corpus.rs:501-560 | Agrees with the parse of a chunk, field by field, failures and unread bytes included. |
| `CorpusCache.ReadHeader` | crates/inillucent-bench/src/corpus.rs:388-437 | The header the file declares; if the file loads it is the loaded corpus's header. |
| `CorpusCache.LoadCache` | crates/inillucent-bench/src/corpus.rs:448-567 | Agrees with the parse of the whole file, for every file. |
| `CorpusCache.FeedDigest` | crates/inillucent-bench/src/corpus.rs:128-143 | Feeds the hasher exactly the tag, the count and each chunk's covered fields, each with its length. |
| `CorpusCache.DigestedIsInjective` | crates/inillucent-bench/src/corpus.rs:117-143 | Two corpora feed the hasher the same bytes exactly when they agree in every field it covers. |
| `LittleEndian.DecodeOfEncode` | crates/inillucent-bench/src/corpus.rs:298-311 | A number that fits its bytes comes back from them. |
| `LittleEndian.EncodeOfDecode` | crates/inillucent-bench/src/corpus.rs:305-311 | Bytes are the encoding of the number they decode to. |
| `DeflateFormat.LengthsByRule` | crates/inillucent-base/src/deflate.rs:44-53 | The lengths and their extra bits without the tables: one length a code, then four codes to each number of extra bits, and 258 alone. |
| `DeflateFormat.DistancesByRule` | crates/inillucent-base/src/deflate.rs:55-65 | The distances and their extra bits without the tables: one distance a code, then two codes to each number of extra bits. |
| `DeflateFormat.PlacesByRule` | crates/inillucent-base/src/deflate.rs:67-70 | The order of the code-length code lengths without the table: 16, 17, 18 and 0, then outward from 8 and 7 in turn; every one of the nineteen in exactly one place. |
| `DeflateFormat.PlacedAt` | crates/inillucent-base/src/deflate.rs:271-278 | Each length written lands at the symbol the rule gives its place, and symbols not written have none, however many are written. |
| `Huffman.NothingDecodes` | crates/inillucent-base/src/deflate.rs:633-653 | With no code in the list, fifteen bits or more are reported as too long a code and fewer as the end of the input. |
| `KnownStreams.StoredInflates` | crates/inillucent-base/src/deflate.rs:191-202 | A stored block of one byte, given by its six bytes, inflates to that byte. |
| `KnownStreams.ThousandInflates` | crates/inillucent-base/src/deflate.rs:715-726 | The fixed block another engine wrote, given by its eleven bytes, inflates to a thousand zeroes. |
| `KnownStreams.DynamicInflates` | crates/inillucent-base/src/deflate.rs:266-309 | A dynamic block given by its 31 bytes, whose header uses all nineteen code-length symbols with lengths of three, four and five bits, every kind of run, and code lengths from 0 to 15, inflates to the seven bytes of its four literals and its match. |
| `KnownZlib.ThousandUnwraps` | crates/inillucent-base/src/deflate.rs:715-726 | That engine's whole zlib stream decompresses to a thousand zeroes, its checksum included. |
| `KnownZlib.HeaderExactly` | crates/inillucent-base/src/deflate.rs:132-146 | A header is accepted exactly when the first byte's low four bits are the method 8, the dictionary bit is clear and the two bytes, big-endian, are a multiple of 31. |
| `KnownZlib.AdlerWraps` | crates/inillucent-base/src/deflate.rs:176-186 | The checksum of 300 bytes of 255, both of whose sums pass the modulus. |
| `Crc32Known.CheckValue` | crates/inillucent-base/src/checksum.rs:247-252 | The published check value of the digits 1 to 9. |
| `Crc32Known.LeadingZeroIsSeen` | crates/inillucent-base/src/checksum.rs:186-238 | A zero byte in front of any data changes its checksum. |
| `WalChecksum.WordWeights` | crates/inillucent-base/src/checksum.rs:45-84 | A word is its bytes weighted by powers of 256, the first least in little-endian order and most in big-endian order. |
| `WalChecksum.SumsAreFibonacciWeighted` | crates/inillucent-base/src/checksum.rs:45-84 | For any starting sums and any whole blocks, both sums are the words weighted by Fibonacci numbers in reverse order, as section 4.2 of the file format states them. |
| `Sha256Vectors.AbcVector` | crates/inillucent-base/src/hash.rs:205-218 | The published digest of "abc", from the padding to the last byte. |
| `Sha3Bits.RotMovesBits` | crates/inillucent-base/src/sha3.rs:226-262 | Turning a lane left by `n` takes bit z from bit z - n modulo 64. |
| `Sha3Bits.ThetaBits` | crates/inillucent-base/src/sha3.rs:226-245 | Section 3.2.1 of FIPS 202 on A[x, y, z]: each bit takes in the parity of the column to its left at z and of the column to its right at z - 1. |
| `Sha3Bits.RhoBits` | crates/inillucent-base/src/sha3.rs:251-262 | Section 3.2.2: A[0, 0, z] stays, and along the walk A[x, y, z] comes from z - (t + 1)(t + 2)/2 modulo 64. |
| `Sha3Bits.PiBits` | crates/inillucent-base/src/sha3.rs:251-262 | Section 3.2.3: A[x, y, z] comes from A[x + 3y, x, z]. |
| `Sha3Bits.ChiBits` | crates/inillucent-base/src/sha3.rs:264-285 | Section 3.2.4: a bit changes exactly where the next of its row is clear and the one after it set. |
| `Sha3Bits.IotaBits` | crates/inillucent-base/src/sha3.rs:206-215 | Section 3.2.5: only lane (0, 0) takes in the round constant, bit by bit. |
| `Sha3Vectors.AbcVector` | crates/inillucent-base/src/sha3.rs:298-318 | The published digest of "abc" at 256 bits, from the padding through 24 rounds to the last byte. |
| `KnownWords.FoldFromZero` | crates/inillucent-base/src/table_hash.rs:100-103 | From zero, a word is multiplied by the two constants and nothing else. |
| `KnownWords.FoldOfZeroWord` | crates/inillucent-base/src/table_hash.rs:100-103 | A zero word turns the state left by five places and multiplies it, stated as quotients and remainders. |
| `KnownWords.NineByteKey` | crates/inillucent-base/src/table_hash.rs:105-137 | A key of nine bytes is three folds: its first eight bytes little-endian, the ninth with zeros after it, and the length. |
| `KnownWords.FirstDraw` | crates/inillucent-base/src/rng.rs:85-91 | The first number splitmix64 draws from zero. |
| `KnownWords.SeedWords` | crates/inillucent-base/src/rng.rs:26-33 | The four words of a seed's state are the mixes of the seed and one to four times the increment, in that order. |
| `KnownWords.FirstOutputs` | crates/inillucent-base/src/rng.rs:36-44 | The first four numbers xoshiro256** draws from the words 1, 2, 3 and 4. |
| `KnownVarints.ShortForms` | crates/inillucent-base/src/varint.rs:48-71 | The bytes of the values at which one group becomes two and two become three. |
| `KnownVarints.LongestOfEight` | crates/inillucent-base/src/varint.rs:48-71 | The largest eight-byte value is seven continued groups of ones and a last one. |
| `KnownVarints.LongestOfAll` | crates/inillucent-base/src/varint.rs:171-182 | The largest value of all is nine bytes of ones. |
| `KnownVarints.NineBytes` | crates/inillucent-base/src/varint.rs:75-86 | The smallest nine-byte value, byte by byte. |
| `Recycling.WhatIsMade` | crates/inillucent-alloc/src/lib.rs:117-214 | Without the classes: a request of 8 to 4096 bytes aligned to at most sixteen is made as the next multiple of sixteen and held up to 64 KiB or 1024 blocks a thread; any other is made as it is. |
| `Recycling.ResizeStaysExactly` | crates/inillucent-alloc/src/lib.rs:326-351 | A resize returns the block it was given if and only if both sizes are from 8 to 4096, the alignment is at most sixteen and both round up to the same multiple of sixteen, whatever the system answers; nothing then changes but the size on record, and the system is not asked. |
| `Recycling.ServedExactly` | crates/inillucent-alloc/src/lib.rs:242-282 | A request is served without the system if and only if it is pooled and the thread holds a block of its rounded size. |
| `Recycling.LayoutsExactly` | crates/inillucent-alloc/src/lib.rs:326-351 | The layouts a resize may ask for: the alignment a power of two up to 2^63 and the size, rounded up to a multiple of it, below 2^63. |
| `Recycling.FreedIsServedAgain` | crates/inillucent-alloc/src/lib.rs:242-318 | Over a run: pooled blocks of one rounded size freed on a thread, as many as its cap has room for, and then asked for in as many requests of any sizes rounding to the same are handed back, last freed first, without the system; the lists end as they began. |
| `EmbeddingCuts.LongTextsKeepTheirHead` | crates/inillucent-bench/src/llamacpp.rs:255-286 | A text over the bound whose first max(bound - 8, 1) tokens decode to a text that encodes to them again is prepared as exactly that text. |
| `EmbeddingCuts.CutIsTheLastHead` | crates/inillucent-bench/src/llamacpp.rs:255-286 | For any tokenizer there is a chain of at most six texts from the one given, each the decoding of the first max(bound - 8 - 16k, 1) tokens of the one before it, that gives the outcome: the last of them if it is within the bound by the fifth look, and otherwise the failure that ended it. |
| `EmbeddingCuts.AcceptedExactly` | crates/inillucent-bench/src/llamacpp.rs:255-286 | A text is sent if and only if a chain of at most four heads leads to it from the one given and it alone is within the bound. |
| `EmbeddingCuts.ChargeOfText` | crates/inillucent-bench/src/llamacpp.rs:299-345 | A text is charged its tokens and two more, never more than the bound and never nothing. |
| `EmbeddingCuts.FirstBadRowDecides` | crates/inillucent-bench/src/llamacpp.rs:427-491 | A reply with the right number of rows fails for the first bad one, and for its index missing, its index out of range, its vector missing or its width, in that order. |
| `Utf8.IsUtf8Exactly` | crates/inillucent-bench/src/corpus.rs:305-311 | Bytes are accepted as a string if and only if they are the encodings, one after another, of some scalar values: 0 to 0xD7FF and 0xE000 to 0x10FFFF, each in the arithmetic form of its length. |
| `Utf8.TextsAreUnambiguous` | crates/inillucent-bench/src/corpus.rs:305-311 | Two sequences of scalar values with the same encoding are the same. |
| `CorpusTexts.StringsExactly` | crates/inillucent-bench/src/corpus.rs:305-311 | What is written of a string is read back if it is such an encoding and refused for what it is otherwise. |
| `CorpusTexts.TextsLoad` | crates/inillucent-bench/src/corpus.rs:341-567 | A corpus whose strings are encodings of scalar values loads as what was saved, whatever follows it in the file. |
| `CorpusTexts.SomeTexts` | crates/inillucent-bench/src/corpus.rs:305-311 | A character of four bytes is accepted; surrogates, overlong forms, numbers past the last scalar and cut characters are not. |
| `KnownCache.KnownFile` | crates/inillucent-bench/src/corpus.rs:341-379 | The file of a corpus of one chunk, byte by byte: the mark, the order of the fields, the tags of optional ones and the missing time. |
| `KnownCache.KnownDigest` | crates/inillucent-bench/src/corpus.rs:117-143 | The bytes the digest of that corpus is taken over. |
| `Budget.StoppedExactlyFromItsEnd` | crates/inillucent-base/src/budget.rs:193-262 | Whatever has been charged, an armed request is stopped by time at exactly the instants from its arming plus its window on, never when the clock cannot name that end, and a cancellation is reported first. |
| `Budget.KindExactly` | crates/inillucent-base/src/budget.rs:386-398 | A detail names a budget if and only if it is the tag, any white space, and the budget's name as a whole word. |

## Left out

- Error messages: each failure is a constructor; its text is not modelled.
- Huffman.FromLengths: promises nothing for more than 65535 lengths, where the 16-bit counts saturate; no block has more than 320.
- Deflater.Chains.Insert: positions are kept modulo 2^32 as the code keeps them; inputs are otherwise of any length.
- Crc32.Crc32Continue: takes the tables as a value; that the compiled constants are those tables is `Crc32.BuildTables`.
- Sha256.HashPieces: the hexadecimal forms and the one-shot wrapper add nothing to it.
- Sha3.FeedPieces: an unpublished width is the caller's to refuse, as the code says; `sha3_256` copies 32 bytes of it.
- TableHash.Hasher.Write: the fixed-width `write_u8` to `write_usize` are single folds.
- Rng.Generator.NextU64: `next_u32`, `chance`, `fill` and `pick` are built on it and on `Below`; how even the outputs are is not claimed.
- Varint.Encode: the signed forms reinterpret 64 bits and call it.
- Cryptographic strength, and how well any hash distributes its keys.
- Allocator.Pooled.SystemAlloc: the system allocator is any source of aligned ranges apart from those it has handed out, or null; memory is kept block by block rather than as one array of bytes.
- Allocator.Pooled.StorageGone: a thread's heads and counts may each go away at any time, where the compiled thread-locals go away together as the thread ends.
- Atomicity inside one allocator call: calls of one thread do not interleave, and those of different threads share no list, so runs are sequences of calls.
- Embedding.Request: HTTP, JSON and the tokenizer are functions of what they are given; a reply's vectors are taken as already normalised bit patterns.
- Embedding.Prepare: the running counts of texts, tokens and truncations are not kept.
- Embedding.EmbedInFlight: a worker that panics, and so a poisoned slot, is not modelled; an answer depends only on its batch.
- Embedding.MakeBatches: token sums are unbounded integers.
- Embedding.EmbedPrefixed: tokenizing many texts at once is taken to give for each what tokenizing it alone gives; `requests` lists every batch, of which one request at a time sends those up to the first that fails.
- RfcFormat.RfcHeadersExactly: takes incomplete lists as not allowed, as argued above; a reading of the standard that allows them would ask Kraft's inequality of the lists in their place.
- Deflater.DeflateRepeats: what decides between inputs without repeats and inputs that repeat themselves is the sum over the matches found; it promises nothing for repeats at distances over 32, where as many other positions of the same hash may stand before the one wanted, nor for inputs of 2^32 - 1 bytes or more.
- Budget.Guard.Drop: guards dropped out of order are possible in the language and not modelled; the runs of `BudgetRuns` are well nested.
- Budget.Thread.Check: the clock is read as given, and calls of one thread and raises of a flag happen one at a time.
- CorpusCache.LoadOfSave: asks for strings, lists and counts below 2^32, which the file's fields hold, and for vectors of the declared width; `CorpusDamage` says what other widths do.
- CorpusCache.FeedDigest: stops at the bytes fed; the digest of them is SHA-256, and `manifest_digest` and `seed_digest` feed other fields the same way.
- File handling, PostgreSQL, ranking, the storage engine, the parser and the planner are not part of this model.
