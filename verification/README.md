# ARMboot: proofs about its portable core

ARMboot is a boot loader for ARM boards.  Most of it drives hardware; this
project models the part that computes, in `common/`, and proves what the rest of
the loader relies on.  Code that works by changing things in place is modelled
as it is: classes with the program's variables, methods with its loops and
branches, memory and arrays updated by position.  Every such method is tied to a
specification that does not follow its steps.

`dafny verify dfyconfig.toml` checks everything.

## What is modelled

**The DEFLATE decoder** (`common/zlib.c`).  `Canonical` is the code of section
3.2.2 of RFC 1951.  `TableBuilder` is `huft_build` with its table stack, dummy
codes and backwards increment; `HuftTheorems` says what its linked tables decode
and `TableMemory` how many entries they take.
`BitInput` and `SlidingWindow` are the bit buffer and the window that is also the
output queue; `Adler` is the checksum with its deferred modulo.  `InflateSpec`
and `BlocksSpec` say what a block and a stream mean, symbol by symbol;
`DynamicSpec` says what the header of a dynamic block means and `DynamicTrees`
reads it.  `InflateCodes` has both decoders of a compressed block, the suspendable
one and the fast one, and `InflateBlocks` the block machine.  `StreamMemory` says
where on its way a stream needs more table entries than there are.
`InflateComplete` proves that every stream with an end is decoded to that end and
every broken one is reported, however input and output are handed out, except
that memory runs out exactly where the tables do not fit; `DeflateFormat` is the
format from the writer's side, and `Deflate` proves that decoding undoes encoding,
for stored, fixed and dynamic blocks.  Reader and writer share tables; that these
are the ones of RFC 1951 is stated by laws of their own (`LengthBases`,
`DistanceBases`, `BorderIs`, `RepeatRange`, `TableParts`) and by streams byte by byte
in `DeflateExamples`, `MatchExample` and `DynamicExample`.

**The heap allocator** (`common/dlmalloc.c`, `sbrk` in `common/board.c`).  Memory
is a map from addresses to words; chunk headers, footers, bin links and user data
all lie in it and can overlap unless proved not to.  `HeapShape` is the abstract
state: which chunks tile the arena, which bin holds which free chunk.  `HeapTags`
and `HeapLinks` relate it to the boundary tags and the circular lists,
`HeapSearch` is the indexed best-fit search, `HeapMalloc`, `HeapFree`,
`HeapRealloc` and `HeapAlign` are the routines, each with what becomes of every
chunk and bin.  `HeapRuns` puts them together:
over any sequence of calls every answer is the one the situation demands, every
situation follows from the one before, and every block has the size asked for and
holds what was last stored in it.

**The Kermit receiver** (`common/cmd_boot.c`).  `Kermit` is the receiver as a
machine over the characters of the line, `KermitReceiver` is `k_recv` as it runs,
`KermitTheorems` proves exactly-once delivery, `KermitSender` that packets as a
sender writes them arrive, and `KermitReplies` that the sender can read what comes
back; packets of a usual transfer are given character by character.

**CRC-32** (`common/crc32.c`) in `Crc32`, and **the environment store**
(`common/cmd_nvedit.c`) in `EnvSpec` and `EnvStore`, with `simple_strtoul` in
`Numbers`.

## Where the code does not keep its promise

Each of these is a lemma, and where a caller can tell, an exact condition.

- `huft_build` makes a subtable wider than its lookups, and leaves slots unfilled,
  when a code is more than one lookup longer than the prefix of its table
  (`HuftTheorems.AgreementIffNoJump`, `JumpExample`).  No call in the program does
  (`CallersAreSafe`).
- A code of a single symbol, or of none, is accepted although it does not decide
  every bit string.  A header with such a code for its code lengths can lead to an
  entry that was never set, and with an empty one always leads to a table that was
  never built (`DynamicSpec.CoversIffComplete`, `EmptyCodeUndecided`, with an input in
  `Deflate.EmptyCodeInput`); all headers are decided iff that code is complete
  (`DeflateFormat.DecidedIffComplete`).  The decoders are proved for streams that
  stay with what is decided (`StreamClean`).
- The length codes 286 and 287, which section 3.2.6 of RFC 1951 says never occur,
  get operation 16 and base 0, and so a count that is no length; with it the copy
  loops of the fast decoder run on (`InflateSpec.ReservedLength`,
  `InflateCodes.CopiesCount`, with an input in `Deflate.ReservedInput`).
  `StreamClean` excludes them.
- A stream whose last block is an empty stored block never ends
  (`Deflate.DecodesIffClosed`).
- A request just below two gigabytes is padded to a minimal chunk
  (`HeapWords.PadSuits`); from 0x7FFFFFE5 to 0x7FFFFFF4 bytes `rEALLOc` of the last
  block takes any `top` for large enough, and the block then reaches behind the
  break (`HeapRealloc.TopTestRight`, `TopTestFails`, `Realloc`); `mEMALIGn` adds
  without looking for overflow (`HeapAlign.TotalRight`, `OverflowingAlign`).
- A padding close to 2^32 makes `malloc_trim` release more than it should, and
  mostly more than `top` has: then sbrk either gives blocks in use away or answers 0,
  which is not what failure is compared with, and in both cases the size of `top`
  no longer fits the break (`HeapFree.TrimExtraIs`, `Trim`, `TrimOverreach`).
- A damaged length character undoes a Kermit packet that has been acknowledged
  (`KermitTheorems.HeaderDamage`, on a line in `KermitSender.DamagedLine`), and so
  does a damaged repetition if the sender has already gone on
  (`LateAcknowledgement`, `LateLine`), in both cases exactly if the packet has moved
  the address or the escape flag.  A sender that asks for padding with start
  characters cannot find the replies (`KermitReplies.ReplyRead`).
- `_do_setenv` compares the length of a definition with the whole store, not with
  what is free: what does not fit is written over what follows
  (`EnvStore.TestRightIff`, `OverflowExample`, `SetEnv`).  When it refuses a
  definition for its length, the variable is gone and the checksum is left as it
  was, which is wrong at least when it was the only one (`SetEnv`).  Taking
  `baudrate` away reads a number from address 0 (`Rate`).

## Model

| member | source | states |
|---|---|---|
| TableBuilder.HuftBuild | common/zlib.c:1235-1435 | the result is the data error iff the Kraft sum exceeds 1; otherwise the memory error iff fewer entries are given than the tables take, the buffer error iff the sum is below 1 and the longest code is not one bit, and OK in all other cases (all-zero lengths included); when tables are built every slot of every one is filled as the canonical code says, and exactly the entries they take are used up |
| TableBuilder.NeededIs | common/zlib.c:1349-1396 | lengths and lookup width alone decide how many entries huft_build takes, whichever dummies and values it works with |
| TableMemory.SpentWithin | common/zlib.c:1349-1396 | the tables made never take more than the entries of the code, and exactly those once every prefix that goes on has its table |
| TableMemory.FirstBitsIs | common/zlib.c:1354-1368 | the first code below a prefix is the prefix followed by zeros, and its length decides where the search for a table width begins |
| TableMemory.LevelSize | common/zlib.c:1349-1396 | without wide jumps the tables of one level are at most half as many as the codes, and no wider than a lookup or the rest of the longest code |
| TableBuilder.CountLengths | common/zlib.c:1272-1287 | counts, for every length, the symbols that have it |
| TableBuilder.Deficit | common/zlib.c:1307-1313 | the running value is the Kraft deficit of the lengths, scaled: negative iff over-subscribed |
| TableBuilder.Offsets | common/zlib.c:1316-1321 | offsets are the sums of the counts of the shorter lengths |
| TableBuilder.OrderSymbols | common/zlib.c:1324-1329 | the value table lists the symbols by length and, within a length, in order |
| TableBuilder.TableBits | common/zlib.c:1354-1368 | the width chosen for a subtable covers the code being entered and never exceeds what remains of the longest code |
| TableBuilder.FillSlots | common/zlib.c:1413-1416 | exactly the slots whose low bits are the code are replaced |
| TableBuilder.BackwardsIncrement | common/zlib.c:1418-1421 | incrementing backwards yields the reversal of the next canonical code |
| TableBuilder.Builder.MakeTables | common/zlib.c:1349-1396 | tables are made up to the level of the code, each linked from its parent at the slot of the code, keeping every filled slot right |
| TableBuilder.Builder.SetEntry | common/zlib.c:1398-1411 | the entry is that of the next symbol in canonical order, or the invalid one when the symbols have run out |
| TableBuilder.Builder.EnterCode | common/zlib.c:1345-1417 | entering a code fills its slots and leaves all others as they were |
| TableBuilder.Builder.BackUp | common/zlib.c:1423-1428 | backs up to the deepest table whose prefix the next code has |
| TableBuilder.Builder.NextCode | common/zlib.c:1418-1428 | after the increment and the backing up every slot before the next code is final, and every table left lies wholly before it |
| TableBuilder.Builder.Build | common/zlib.c:1332-1430 | the loops over lengths and codes fill every slot of every table, iff the memory holds the entries the code takes |
| HuftTheorems.TablesDecodeSymbol | common/zlib.c:1332-1430 | walking the linked tables on any string that starts with the code of a symbol ends at the entry of that symbol and uses exactly the bits of its code |
| HuftTheorems.TablesAreCanonical | common/zlib.c:1235-1435 | for complete lengths and without a wide jump the tables and the canonical code of section 3.2.2 of RFC 1951 agree on every bit string |
| HuftTheorems.TablesRejectUnused | common/zlib.c:1398-1411 | with all lengths nonzero, a string that starts with no code ends at the invalid entry |
| HuftTheorems.AgreementIffNoJump | common/zlib.c:1354-1368 | tables and code agree on all strings, whatever new memory held, when no code outgrows the next table by more than its lookup; when one does and new memory held invalid entries, they do not |
| HuftTheorems.CallersAreSafe | common/zlib.c:1354-1368 | no such jump for codes of at most two table widths or of fewer than 2^(l+1) symbols: every call the program makes |
| HuftTheorems.JumpExample | common/zlib.c:1354-1368 | lengths 1,3,3,3,3 with one-bit tables have such a jump |
| HuftTheorems.SomeSymbol | common/zlib.c:1307-1313 | in a complete code every bit string starts with the code of exactly one symbol |
| WideTables.NarrowIffNoJump | common/zlib.c:1354-1368 | all tables are as wide as their lookups iff there is no wide jump |
| WideTables.StrayWalk | common/zlib.c:1354-1368 | with a wide jump there is a string on which the walk leaves the filled slots |
| Canonical.LenFinds | common/zlib.c:1342-1346 | a complete code has a code length for every bit string |
| Canonical.PrefixFree | common/zlib.c:1342-1346 | no code is a prefix of another |
| Canonical.KraftAtMax | common/zlib.c:1307-1313 | the number of codes used up at the greatest length is the Kraft sum |
| HuffmanTables.WalkFrom | common/zlib.c:1727-1754 | from every table, a walk on filled tables decides what the code decides |
| BuiltTrees.BuiltTree | common/zlib.c:1332-1430 | built tables meet what the decoders rely on: lookups inside, links forward, at most 15 bits looked at, and the canonical entry for every string that a code or a full set of nonzero lengths decides |
| FixedTables.FixedCodeValues | common/zlib.c:1544-1591 | the canonical codes of the fixed lengths are the table of section 3.2.6 of RFC 1951 |
| FixedTables.FixedKraft | common/zlib.c:1544-1591 | the fixed literal code is complete, the fixed distance code lacks exactly two codes of five bits |
| FixedTables.InflateTreesFixed | common/zlib.c:1509-1591 | the fixed trees decode the fixed codes, the unused distance codes as invalid; they are built iff there are 530 entries, and take all of them |
| FixedTables.LitEntries | common/zlib.c:1509-1514 | the literal tree takes 497 entries: a root of 128 slots, 76 tables of two and 28 of four |
| FixedTables.DistEntries | common/zlib.c:1509-1514 | the distance tree takes 33 |
| BitInput.BitReader.NextByte | common/zlib.c:634-637 | a byte or-ed in leaves the position and adds eight bits, even when the buffer still holds returned bits |
| BitStream.OrByte | common/zlib.c:636-637 | or-ing a byte of the stream over bits that are already there is harmless: they are the same bits |
| BitInput.BitReader.NeedBits | common/zlib.c:634-637 | enough bits, or the input has run out; the position does not move |
| BitInput.BitReader.DumpBits | common/zlib.c:638 | the position moves by the bits dumped |
| BitInput.BitReader.Ungrab | common/zlib.c:1942-1947 | giving back whole bytes does not move the position |
| SlidingWindow.Window.Flush | common/zlib.c:1862-1933 | delivers as much of the pending bytes as there is room for; delivered followed by pending is what has been decoded, and the checksum is that of the delivered bytes |
| SlidingWindow.Window.FlushRest | common/zlib.c:1897-1926 | wraps both pointers and delivers what lies at the beginning |
| SlidingWindow.Window.NeedOut | common/zlib.c:642-644 | room for a byte without overwriting a pending one, or the caller has no room left and bytes are pending |
| SlidingWindow.Window.OutByte | common/zlib.c:645 | the byte is the last decoded one; nothing pending is lost |
| SlidingWindow.Window.SourceIs | common/zlib.c:1804-1823 | the byte any distance up to the window size back is found where the decoders look for it |
| Adler.Adler32 | common/zlib.c:2137-2162 | the 32-bit sums never overflow and the result is that of reducing after every byte (section 8.2 of RFC 1950), or 1 for a null buffer |
| Adler.PlainFits | common/zlib.c:2126-2136 | at most NMAX bytes keep both sums below 2^32 |
| Adler.NmaxIs | common/zlib.c:2127-2128 | 5552 is the greatest number of bytes after which the second sum is sure to fit in 32 bits |
| Adler.PlainCongruent | common/zlib.c:2149-2160 | leaving out the modulo changes nothing modulo the base |
| Adler.ChecksumAppend | common/zlib.c:1883-1915 | a checksum taken in pieces is that of the whole |
| Adler.KnownSum | common/zlib.c:2137-2162 | the checksum of a word that is known from elsewhere |
| Adler.KnownWrap | common/zlib.c:2126 | the sums go from 65520 to 0 |
| InflateCodes.Decoder.FastLookup | common/zlib.c:1985-2000 | the chain of lookups ends at the canonical entry and has dumped exactly the bits of its code |
| InflateCodes.Decoder.FastCopy | common/zlib.c:2022-2052 | the copy, across the end of the window or not, overlapping or not, repeats the byte at the distance |
| InflateCodes.CopiesCount | common/zlib.c:2022-2052 | in 32-bit arithmetic the unrolled copy is as long as the count iff the count is at least three; for the count 0 it runs on |
| InflateSpec.LengthBases | common/zlib.c:1178-1184 | the length codes with their extra bits count up from 3 to 258 without a gap, the number of extra bits growing by one every four codes; 258 has a code of its own |
| InflateSpec.DistanceBases | common/zlib.c:1185-1192 | the distance codes count up from 1 to 32768 without a gap, the extra bits growing by one every two codes |
| InflateSpec.ReservedLength | common/zlib.c:1180-1186 | a length code leads to a count of 3 to 258 iff it is below 286; the reserved ones lead to 0 |
| InflateSpec.LengthEntries | common/zlib.c:1398-1411 | length codes below 286 have base 3 or more, 286 and 287 get operation 16 and base 0 |
| InflateCodes.Decoder.InflateFast | common/zlib.c:1949-2094 | ends in a state that some number of whole symbols of the block reaches: same bytes, same window, same bit position; input and window are not overrun |
| InflateCodes.Decoder.StepLen | common/zlib.c:1727-1764 | one lookup of the slow decoder: what is known of the symbol becomes what the entry says |
| InflateCodes.Decoder.StepCopy | common/zlib.c:1804-1823 | copies while there is room; the history grows by the match, byte by byte |
| InflateCodes.Decoder.StepWash | common/zlib.c:1829-1833 | flushes what is left before the block ends |
| InflateCodes.Decoder.InflateCodes | common/zlib.c:1687-1844 | however input and output are handed out, the state is one the symbols of the block reach, and the result tells why the call ended |
| CodesState.LenDecides | common/zlib.c:1727-1764 | a finished literal/length walk decides between literal, length, end of block and error as the canonical code does |
| CodesState.DistDecides | common/zlib.c:1774-1796 | a finished distance walk decides between distance and error |
| CodesState.SymbolDone | common/zlib.c:1798-1828 | a finished match or literal is one whole symbol of the specification |
| InflateBlocks.Inflater.StepType | common/zlib.c:817-864 | the block header, as section 3.2.3 of RFC 1951 reads it |
| InflateBlocks.Inflater.StepLens | common/zlib.c:865-878 | LEN and NLEN of a stored block; an empty one goes back to the header |
| BlocksSpec.LengthsPair | common/zlib.c:865-878 | the two lengths of a stored block match iff they are complementary |
| BlocksSpec.HeaderBroken | common/zlib.c:817-878 | a block header is broken iff its type is 3 or it is that of a stored block whose lengths do not match |
| InflateBlocks.Inflater.StepStored | common/zlib.c:879-895 | copies as much as input, output and block allow |
| InflateBlocks.Inflater.StepTable | common/zlib.c:896-920 | the sizes of the codes; more than 286 literals or 30 distances are refused |
| InflateBlocks.Inflater.StepBTree | common/zlib.c:921-942 | the code length code and its tree; a bad set is refused, lack of memory leaves the state for another try |
| InflateBlocks.Inflater.StepDTree | common/zlib.c:943-1017 | the code lengths and both trees; then the block is decoded in the codes that section 3.2.7 of RFC 1951 says |
| InflateBlocks.Inflater.StepCodes | common/zlib.c:1018-1042 | decodes the block and goes on to the next or to the end |
| DynamicTrees.TreeReader.ReadBitLengths | common/zlib.c:921-929 | the lengths of the code length code stand where the fixed order puts them, those not sent are zero |
| DynamicTrees.TreeReader.RepeatLength | common/zlib.c:961-988 | a repetition fills in the length before it or zeros, or is refused when there is none before it or it would overrun |
| DynamicTrees.TreeReader.ReadCodeLengths | common/zlib.c:943-991 | reads on from whatever has been read to what the whole header says, or finds it bad |
| DynamicTrees.TreeReader.BuildTrees | common/zlib.c:992-1016 | the trees of the two parts of the lengths, or the error that the specification has, or the memory error iff the trees do not fit |
| DynamicTrees.InflateTreesBits | common/zlib.c:1438-1456 | one lookup in the table decodes every code of the code length code, and an empty code has no table; the memory error iff fewer entries are given than the table takes, the data error iff the lengths are not acceptable and memory does not run out first |
| DynamicTrees.InflateTreesDynamic | common/zlib.c:1459-1506 | the memory error iff the entries do not suffice for the literal tree, or for the distance tree after an acceptable literal one; otherwise success iff both sets of lengths are acceptable, and then both trees meet what the decoders rely on |
| DynamicTrees.TreeSize | common/zlib.c:1459-1506 | an acceptable literal tree takes at most 9873 entries, a distance tree at most 1175 |
| DynamicTrees.NeededBound | common/zlib.c:1459-1506 | an acceptable literal tree never takes more than 9873 entries, an acceptable distance tree never more than 1175 |
| DynamicTrees.GoodFits | common/zlib.c:921-1016 | a good header is never short of 11048 entries |
| DynamicTrees.WidthsWork | common/zlib.c:993-994 | with 9 and 6 bits asked for, no lookup takes more than 9 and no table is wider than its lookup |
| DynamicSpec.CoversIffComplete | common/zlib.c:1307-1313 | every bit string starts with a code iff the lengths are complete |
| DynamicSpec.BorderIs | common/zlib.c:698-699 | the lengths of the code length code come in the order of section 3.2.7 of RFC 1951: repetitions, 0, and then from 8 outwards |
| DynamicSpec.RepeatRange | common/zlib.c:961-974 | the symbols 16, 17 and 18 stand for 3 to 6, 3 to 10 and 11 to 138 lengths |
| DynamicSpec.TableParts | common/zlib.c:896-912 | the sizes of the three codes from their fields; more than 286 or 30 codes are refused |
| DynamicSpec.EmptyCodeUndecided | common/zlib.c:1438-1456 | a header whose code length code is empty is accepted, and its outcome depends on bits that no code decides |
| Deflate.EmptyCodeInput | common/zlib.c:896-957 | four bytes that begin a dynamic block whose code length code is empty |
| DeflateFormat.DecidedIffComplete | common/zlib.c:943-957 | all headers with a given code length code are decided by codes iff that code is complete |
| InflateBlocks.Inflater.StepDry | common/zlib.c:1043-1050 | the stream ends when all output has been delivered |
| InflateBlocks.Inflater.InflateBlocks | common/zlib.c:798-1058 | every call ends in a state that steps of the stream lead to with all trees on the way fitting into memory, and the result tells why: the end, the data error iff the stream has been found to be broken, the memory error at a dynamic block whose trees do not fit, or lack of input or room |
| InflateComplete.InflateWhole | common/zlib.c:798-1058 | with all input and room, a stream that comes to an end is decoded to it and one that is broken gets the data error, except that the memory error is the answer iff the trees of some dynamic block on the way do not fit; what is delivered is a prefix of what the stream decodes to, and at the end all of it |
| InflateComplete.InflateInPieces | common/zlib.c:798-1058 | for any division of input and output over calls, what is delivered and pending is a prefix of what the stream decodes to, errors and the end are reported only when the stream comes to them, and once the calls have been given all input and room enough the last one reports which it is |
| InflateComplete.StarvedHow | common/zlib.c:992-1016 | a stream that has an end is starved of memory only at a dynamic block and by fewer than 11048 entries |
| InflateComplete.AffordedEnd | common/zlib.c:798-1058 | a stream whose trees all fit up to where it ends or is broken is never short of memory |
| InflateComplete.ModeBehind | common/zlib.c:1687-1844 | in the middle of a symbol the input is at most 48 bits past its start, and nothing beyond the symbol has been written |
| Deflate.RoundTrip | common/zlib.c:815-1050 | decoding undoes encoding: bytes written as stored blocks, or as literals and matches in the fixed codes or in any acceptable codes with any header for them, come back, and all but the trailer has been read; memory runs out iff for some dynamic block the code length code, or the two trees together, need more entries than there are |
| Deflate.ShortPieces | common/zlib.c:992-1016 | no encoded stream needs more than 11048 entries |
| Deflate.InflateNew | common/zlib.c:798-1058 | a new inflater, its fixed trees built in the 530 entries set aside, tells of every stream that ends or is broken which it is, or runs out of memory, and delivers what a stream with an end decodes to |
| Deflate.TokenRead | common/zlib.c:1727-1828 | a literal or match that has been written is read back with its length and distance |
| Deflate.WindowIrrelevant | common/zlib.c:1804-1828 | when no match points back before the beginning, what the window held does not matter |
| Deflate.LiteralsEncodable | common/zlib.c:835-849 | any bytes can be written as literals of a fixed block |
| DeflateExamples.FourLetters | common/zlib.c:817-1058 | the four bytes 4B 04 02 00 are decoded to four letters a |
| DeflateExamples.ThreeLetters | common/zlib.c:865-895 | the eight bytes of a stored block of three letters are decoded to them |
| MatchExample.RepeatedLetters | common/zlib.c:1757-1828 | eight bytes with a match whose length and distance have extra bits are decoded to seventeen letters |
| DynamicExample.TwoLetters | common/zlib.c:896-1042 | fifteen bytes that are a dynamic block, whose header uses all three repetitions, are decoded to two letters |
| Deflate.ReservedInput | common/zlib.c:835-849 | two bytes that begin a fixed block with the reserved code 286 |
| DeflateFormat.PlanRead | common/zlib.c:896-1016 | a header that has been written in any legal way is read back as the codes it stands for |
| DeflateFormat.SomePlan | common/zlib.c:896-1016 | for all acceptable code lengths there is a header |
| DeflateFormat.AnyMatch | common/zlib.c:1180-1196 | every length of 3 to 258 at every distance of 1 to 32768 can be written |
| Deflate.DecodesIffClosed | common/zlib.c:874-878 | an encoded stream is decoded to its end iff its last block is not an empty stored one |
| DeflateFormat.SymbolUnique | common/zlib.c:1342-1346 | the codes of two different symbols never start the same string |
| DeflateFormat.ReadCode | common/zlib.c:1727-1754 | a code written to the stream is read back as its symbol |
| HeapWords.PadSuits | common/dlmalloc.c:590-593 | padding yields the smallest aligned size with room for the request iff the request is at most 0x7FFFFFF4; above, it overflows to the minimal chunk |
| HeapWords.BinIndexMonotone | common/dlmalloc.c:806-813 | a larger chunk is never in a lower bin |
| HeapWords.SmallBinsExact | common/dlmalloc.c:806-821 | chunks of a small bin are all of one size |
| HeapWords.BinSpan | common/dlmalloc.c:714-725 | which sizes each bin holds |
| HeapWords.SetBitIs | common/dlmalloc.c:849-851 | marking a block changes its bit only |
| HeapShape.TilesExactly | common/dlmalloc.c:449-569 | every byte of the arena belongs to exactly one chunk |
| HeapTags.NextTells | common/dlmalloc.c:933-990 | the chunk after tells whether a chunk is free; a free one lies between chunks in use and not before top |
| HeapTags.BackTells | common/dlmalloc.c:505-513 | a clear in-use bit leads to the free chunk before, by the size at its foot |
| HeapLinks.UnlinkKeeps | common/dlmalloc.c:1089-1095 | unlink takes the chunk out of its ring; every other ring is as it was |
| HeapLinks.LinkKeeps | common/dlmalloc.c:1057-1084 | linking puts the chunk between its neighbours; every other ring is as it was |
| HeapSteps.FrontLink | common/dlmalloc.c:1057-1084 | the chunk enters the bin of its size, in front of the first that is not larger, and the bin is marked |
| HeapSteps.FindPlace | common/dlmalloc.c:1070-1079 | the place is in front of the first chunk that is not larger |
| HeapSearch.FirstFit | common/dlmalloc.c:1572-1597 | from the back, the first chunk large enough is the smallest of its bin, and of those the one furthest back |
| HeapSearch.ExactFit | common/dlmalloc.c:1449-1505 | an exact fit is the best fit of all bins; else every fit is in the bins searched next |
| HeapSearch.ClearBlock | common/dlmalloc.c:1603-1614 | a block bit is cleared only when its bins are empty |
| HeapSearch.HigherFits | common/dlmalloc.c:806-813 | a chunk in a bin above that of the request always fits |
| HeapSearch.BlockEmpty | common/dlmalloc.c:834-851 | the bins of a block that is not marked are empty: they may be skipped |
| HeapSearch.SearchBins | common/dlmalloc.c:1539-1629 | the indexed search finds a smallest binned chunk that fits, the one longest in its bin, or there is none |
| HeapMalloc.SbrkSize | common/dlmalloc.c:1267-1276 | the arena is asked for the fewest whole pages that hold the block and a minimal chunk |
| HeapMalloc.FromLast | common/dlmalloc.c:1507-1537 | the last remainder is split, used up, or put in its bin, where it does not matter to the search |
| HeapMalloc.SplitBest | common/dlmalloc.c:1577-1587 | the front of the chunk is in use, the rest is the last remainder, everything else is as it was |
| HeapMalloc.ExtendTop | common/dlmalloc.c:1251-1379 | top grows by whole pages iff the arena has room |
| HeapMalloc.FromTop | common/dlmalloc.c:1632-1657 | splits top, extended if need be; fails iff top is too small and the arena cannot grow |
| HeapMalloc.Malloc | common/dlmalloc.c:1425-1658 | the new block is cut from an exact fit if there is one, else from the last remainder if that is large enough, else from the best fit, else from top, of several of one size from the one longest in its bin; what becomes of all chunks and bins is said exactly; no other block or its contents change; 0 iff nothing fits and the arena cannot grow; the break moves only to extend the arena; the invariant holds |
| HeapMalloc.RefusedIff | common/dlmalloc.c:1267-1282 | malloc answers 0 iff no free chunk is large enough, top is too small and no number of whole pages that would be enough fits below the end of the arena |
| HeapFree.FreeIntoBins | common/dlmalloc.c:1741-1775 | consolidates with both neighbours into one free chunk, the last remainder if one of them was that, else in the bin of its size; the block alone ceases to be in use |
| HeapFree.FreeIntoTop | common/dlmalloc.c:1722-1739 | the block and a free chunk before it become part of top, which is trimmed when it is large |
| HeapFree.Free | common/dlmalloc.c:1686-1775 | the block, and nothing else, ceases to be in use; what becomes of the chunks and bins is said exactly; the contents of all other blocks and the invariant are kept |
| HeapFree.Trim | common/dlmalloc.c:2266-2319 | releases whole pages down to the padding and a minimal chunk; the heap stays in order iff a chunk of top remains, and otherwise top no longer fits the break |
| HeapFree.ValidTop | common/dlmalloc.c:551-555 | in a heap that is in order top reaches up to the break and has a minimal chunk |
| HeapFree.TrimExtraIs | common/dlmalloc.c:2278-2281 | the padding is left iff the unsigned difference does not wrap to two pages or more, and the heap stays in order iff, if it wraps, the rest of its last page covers the distance of the padding from 2^32 |
| HeapFree.TrimmedFrom | common/dlmalloc.c:1736-1737 | top is trimmed from 128 KB on |
| HeapFree.TrimOverreach | common/dlmalloc.c:2278-2281 | for a top of 128 KB and the padding 0xFFFFE000 more is released than top has |
| HeapFree.Release | common/dlmalloc.c:2290-2316 | the break moves if the arena allows it and top is cut as if it had; when too much is released the size of top does not fit the break |
| HeapFree.Sbrk | common/board.c:60-72 | the break moves iff the new one is in the arena; 0 is returned otherwise |
| HeapRealloc.CopyWords | include/malloc.h:402-418 | copying upwards is right for a lower destination, overlapping or not |
| HeapRealloc.SplitBlock | common/dlmalloc.c:1993-2012 | frees what is too much, if it can be a chunk; what remains of the block keeps its contents |
| HeapRealloc.TryForward | common/dlmalloc.c:1882-1909 | grows into top or the free chunk after the block |
| HeapRealloc.ShiftTop | common/dlmalloc.c:1892-1900 | the block takes what it needs from top; a request for which the test is wrong gets a block that reaches behind the break |
| HeapRealloc.TryBackward | common/dlmalloc.c:1916-1967 | shifts backwards, alone or with what is free after the block; the contents come along |
| HeapRealloc.Elsewhere | common/dlmalloc.c:1969-1990 | a new block where malloc takes it from, with the old contents, and the old one freed; or the old block with the chunk after it, when the arena was extended |
| HeapRealloc.Grow | common/dlmalloc.c:1874-1990 | a block that can grow into what follows it stays; else it is shifted to the free chunk before it if that is enough, else it is allocated anew |
| HeapRealloc.Realloc | common/dlmalloc.c:1818-2012 | the answer is the block itself if it is large enough or what follows it makes enough, else the free chunk before it if that is enough, else where malloc finds a block; it has room for the request and the first min(old,new) bytes of its contents; what becomes of the chunks is said exactly, all other blocks are as they were; 0 iff none of this is possible; when the test for top is wrong, which is decided before the call, the block itself is the answer though it reaches behind the break |
| HeapRealloc.TopTestRight | common/dlmalloc.c:1888-1900 | the signed test for growing into top is right for every size of top iff the padded request plus a minimal chunk is below 2^31; otherwise it always succeeds |
| HeapRealloc.TopTestFails | common/dlmalloc.c:1888-1900 | a request of 0x7FFFFFE5 bytes passes the test with a minimal top |
| HeapAlign.Memalign | common/dlmalloc.c:2037-2131 | the block is cut from the one malloc finds, at the first aligned address that leaves a chunk before it or at its beginning, and is of the padded size; leading and trailing room is freed; no other block changes; 0 iff malloc refuses the padded sum |
| HeapAlign.TotalRight | common/dlmalloc.c:2068-2074 | malloc refuses the sum or gives room for it iff it stays below 0x7FFFFFF5 or lies between 2^31 and 2^32 |
| HeapAlign.OverflowingAlign | common/dlmalloc.c:2068-2074 | for the alignment 16 and 0x7FFFFFD4 bytes the sum is padded to a minimal chunk |
| HeapAlign.CutToAlign | common/dlmalloc.c:2078-2114 | the aligned spot leaves a leader that can be a chunk |
| HeapRuns.FirstExtend | common/dlmalloc.c:1294-1322 | the first extension gives one aligned chunk that ends at a page boundary |
| HeapRuns.PageUp | common/dlmalloc.c:1311-1316 | the next page boundary, without going further |
| HeapRuns.BlockServes | common/dlmalloc.c:1000-1026 | pointers are 8-aligned and the room suffices, for exactly the requests whose padding does not overflow |
| HeapRuns.BlocksDisjoint | common/dlmalloc.c:449-513 | blocks share no byte and stay inside the arena |
| HeapRuns.Store | common/dlmalloc.c:449-474 | an owner may write all of its room, the last word included, without disturbing the invariant |
| HeapRuns.Serve | common/dlmalloc.c:1425-2319 | one request of any kind changes the blocks, their sizes and what they hold as the callers expect, and its answer is 0 only when the situation of the heap demands it; the situation after it follows from the one before: which chunks there are and in which bins is said exactly for malloc, memalign, realloc and free, the base stays, and the break moves only as the request demands |
| HeapRuns.PutInside | common/dlmalloc.c:1000-1026 | a store inside what was asked for is always carried out |
| HeapRuns.Bears | common/dlmalloc.c:1425-2319 | a caller can tell beforehand which requests the arithmetic bears |
| HeapRuns.ServeAll | common/dlmalloc.c:1425-2319 | over any sequence of malloc, memalign, realloc, free, trim and stores, up to the first request that the arithmetic does not bear: every answer is the one its situation demands, aligned and 0 only when nothing suffices, and every situation follows from the one before, the first and the last being those of the heap; the invariant holds and every block has the size asked for and holds exactly what was stored in it |
| KermitReceiver.Receiver.KDataChar | common/cmd_boot.c:522-531 | one character through the escape translation to memory |
| KermitReceiver.Receiver.GetData | common/cmd_boot.c:781-798 | passes on the characters up to the first invalid one |
| KermitReceiver.Receiver.GetPacket | common/cmd_boot.c:712-826 | one turn of the main loop: checkpoint or roll-back by sequence number, delivery, checks, reply |
| KermitReceiver.Receiver.HandleSendPacket | common/cmd_boot.c:585-661 | what the sender asks for is remembered and what it asked is answered, in the padding and with the end of line it has just asked for |
| KermitReceiver.Receiver.SendReply | common/cmd_boot.c:417-481 | the padding, the packet with its check and the end of line go out, up to the first zero |
| KermitReceiver.Receiver.KRecv | common/cmd_boot.c:663-830 | the loop over the characters of the line is the run of the packet machine, and what has gone out is the lines of its replies in order |
| KermitTheorems.AttemptTracks | common/cmd_boot.c:729-826 | whatever arrives of a packet after its sequence character, the state and the checkpoint stay those of the packets accepted |
| KermitTheorems.ExactlyOnce | common/cmd_boot.c:663-830 | in every stop-and-wait dialogue, with any losses and repetitions, memory holds the text of the accepted packets once and in order, and the checkpoint is that of the packets before the current one |
| KermitTheorems.TextOfPayload | common/cmd_boot.c:541-578 | the escape flag carries over from one packet to the next |
| KermitTheorems.QuotingRoundTrip | common/cmd_boot.c:424-435 | every legal quoting decodes to the bytes it stands for |
| KermitTheorems.Quotable | common/cmd_boot.c:424-435 | exactly the bytes outside 64 to 95 and 63, top bit aside, have a quoted form |
| KermitTheorems.EncodeLegal | common/cmd_boot.c:424-435 | every byte string has a legal encoding without control characters, whichever quotable quote is used |
| KermitTheorems.FileArrives | common/cmd_boot.c:663-830 | a file sent with any legal quoting and cut into packets anywhere is in memory when the dialogue is complete |
| KermitTheorems.HeaderDamage | common/cmd_boot.c:719-728 | a damaged length or sequence character undoes an accepted packet iff that moved the address or the escape flag |
| KermitSender.DamagedLine | common/cmd_boot.c:719-728 | nine characters after which an acknowledged packet has been undone |
| KermitTheorems.LateAcknowledgement | common/cmd_boot.c:739-826 | if a repetition of an accepted packet is damaged and the sender has gone on, the next packet continues the text iff the repeated one had moved neither the address nor the escape flag; if it had text, that text is missing |
| KermitSender.LateLine | common/cmd_boot.c:739-826 | a line on which the text of an acknowledged packet is lost |
| KermitSender.ShortRead | common/cmd_boot.c:712-806 | a short packet as a sender writes it is read as its message |
| KermitSender.LongRead | common/cmd_boot.c:759-806 | so is a long one, with its two length characters and their check |
| KermitSender.SentDialogue | common/cmd_boot.c:663-830 | a transfer in which every packet is sent any number of times is a complete dialogue |
| KermitSender.InitRead | common/cmd_boot.c:585-661 | of a send-initiate packet made of MAXL, TIME, NPAD, PADC, EOL, QCTL and so on, or of any beginning of them, the receiver takes the quote, the padding and the end of line that the sender has said, and the usual ones for what it has not |
| KermitSender.AnswerIs | common/cmd_boot.c:585-661 | the answer is made of the same fields: the longest packets that can be read, no padding, a carriage return, the usual quote, and from ten fields on the capabilities |
| KermitSender.FileSent | common/cmd_boot.c:663-830 | a sender says as much of itself as it likes; a file that is quoted with any quotable quote it has said, cut into packets of any sizes and sent, every packet any number of times, is in memory at the end |
| KermitSender.UsualInit | common/cmd_boot.c:437-446 | the usual send-initiate packet, character by character |
| KermitSender.UsualText | common/cmd_boot.c:424-446 | a new line quoted and in a packet, character by character |
| KermitSender.UsualEnd | common/cmd_boot.c:437-446 | the packet that ends a transmission, character by character |
| KermitSender.LongHeadIs | common/cmd_boot.c:759-780 | the head of a long packet of a thousand characters, character by character |
| KermitReplies.ReplyRead | common/cmd_boot.c:417-481 | up to its end of line every reply, with any padding, is read as a packet with its number and data; the search for its beginning finds it iff the padding asked for is not start characters |
| KermitReplies.AnswersReadable | common/cmd_boot.c:417-661 | whatever the line has delivered, every reply of the run is on the line after those before it, in the padding and with the end of line last asked for, and can be read |
| KermitReplies.UsualAck | common/cmd_boot.c:457-468 | an acknowledgement, character by character |
| KermitReplies.UsualNack | common/cmd_boot.c:470-481 | its opposite |
| KermitReplies.UsualAnswer | common/cmd_boot.c:585-661 | the answer to the usual send-initiate packet, character by character |
| Crc32.MakeCrcTable | common/crc32.c:47-69 | the table holds eight register steps of every byte, the pattern made from the exponents being 0xedb88320 |
| Crc32.Lookup | common/crc32.c:130 | one lookup does the work of eight steps |
| Crc32.Crc32NoComp | common/crc32.c:163-180 | the unrolled loop and its tail compute the bitwise register, or 0 for a null buffer |
| Crc32.Crc32 | common/crc32.c:136-156 | the checksum of section 8 of RFC 1952, or 0 for a null buffer |
| Crc32.ChecksumAppend | common/crc32.c:136-156 | a checksum taken in pieces is that of the whole |
| Crc32.NineDigits | common/crc32.c:136-156 | the checksum of the nine digits is 0xcbf43926 |
| Crc32.Residue | common/crc32.c:136-156 | after any message followed by its checksum, lowest byte first, the register that began with all ones is 0xdebb20e3 |
| Crc32.StepsInjective | common/crc32.c:60-66 | the register step is one-to-one |
| Crc32.RegisterBits | common/crc32.c:24-46 | byte-wise and bit-wise processing agree |
| Crc32.BurstDetected | common/crc32.c:136-156 | two messages of equal length whose bits differ only within 32 consecutive ones have different checksums |
| Crc32.FourBytesDetected | common/crc32.c:136-156 | so have two that differ only within four consecutive bytes |
| Numbers.SimpleStrtoul | common/vsprintf.c:15-40 | the number that a string begins with, in the base given or told by its prefix |
| Numbers.NumeralRead | common/vsprintf.c:15-40 | a number written to any base of 2 to 16, with small or capital letters, is read back modulo 2^32 when that base is asked for, and after 0x to base 16 whatever is asked for |
| Numbers.NumeralOwnBase | common/vsprintf.c:19-31 | without a base asked for, a leading zero means base 8, and anything else base 10 |
| Numbers.DigitsStop | common/vsprintf.c:32-36 | a number ends before the first character that is no digit of its base |
| EnvStore.Environment.EnvMatch | common/cmd_nvedit.c:545-554 | the index of the value iff the names are the same |
| EnvStore.Environment.GetEnv | common/cmd_nvedit.c:516-535 | the value the map has for the name, or nothing |
| EnvStore.Environment.Delete | common/cmd_nvedit.c:312-327 | the line is taken out in place, the others keep their order |
| EnvStore.Environment.FindEnd | common/cmd_nvedit.c:335-341 | the position after the last line |
| EnvStore.Environment.SwitchBaudrate | common/cmd_nvedit.c:288-310 | the speed is set iff it is one of those supported |
| EnvStore.Environment.RateRead | common/cmd_nvedit.c:288-289 | the speed is read to base 10 from the first value |
| EnvStore.Environment.Append | common/cmd_nvedit.c:356-367 | the new line, its arguments joined, and the final zero |
| EnvStore.Environment.SetEnv | common/cmd_nvedit.c:242-373 | deletes the old definition and appends the new one, and the stored checksum matches; an existing baudrate is replaced, and the speed set, iff the new one is supported; a definition that passes the length test and does not fit is written over what follows, and the store holds no list; when the test refuses, the variable is gone and the checksum is the old one, which does not match if it was the only variable |
| EnvStore.SetOnce | common/cmd_nvedit.c:268-283 | exactly serial# and ethaddr, once they are there, cannot be set again |
| EnvStore.Environment.Define | common/cmd_nvedit.c:332-370 | what is written lies in the store iff the lines before it, the definition and the final zero fit |
| EnvSpec.DeletedMeaning | common/cmd_nvedit.c:265-327 | deletion removes one name from the map |
| EnvStore.SetMeaning | common/cmd_nvedit.c:242-373 | the name gets the values joined by blanks, or is removed; every other name keeps its value |
| EnvStore.TestRightIff | common/cmd_nvedit.c:342-355 | in a given store of at least four bytes the overflow test is right about all new variables iff there are none yet |
| EnvStore.OverflowExample | common/cmd_nvedit.c:342-355 | in eight bytes that hold `a=`, the definition `b=ccc` passes the test and ends two bytes behind the store |
| EnvStore.OneList | common/cmd_nvedit.c:265-341 | the bytes hold one list of variables only |
| EnvStore.DoubleZero | common/cmd_nvedit.c:335-341 | two zeros in a row occur at the end only |
| EnvStore.StoredExample | common/cmd_nvedit.c:356-367 | a variable with two values, byte by byte |

## Left out

- InflateBlocks.Inflater.InflateBlocks: requires `StreamClean`, that no bits are decoded by entries that `huft_build` fills with values it never set, and no reserved length code is used; what the program does then depends on old memory.
- Input that is split inside `inflate_fast`: all input is one contiguous sequence of which the caller makes more available from call to call; UNGRAB could otherwise step back before the current buffer.
- Window sizes other than 32768, the zlib header and trailer modes of `inflate`, `inflateSync` and the PPP additions.
- Loading the bit buffer and the pointers into local variables and storing them back; the fields are updated directly.
- HuffmanTables.WalkFrom: tables are sequences found by number, not memory blocks found by pointer; releasing them is not modelled, and every dynamic block has the same number of entries at its disposal.
- Foreign `sbrk` calls, `mmap`, statistics, `mallopt`, `calloc` and the first extension when the arena is too small for it.
- HeapRealloc.Realloc: for a request for which the test for `top` is wrong it says what the routine leaves behind, but nothing about calls after that.
- HeapAlign.Memalign: requires that the padded sum does not overflow to what looks like a small request, see TotalRight.
- `top` and the bit vector are variables of their own, not the first words of the array of bins.
- The low words of the user's data are words; byte stores into them are not modelled separately.
- The saved Kermit packet type, which is always overwritten before it is read.
- KermitReplies.ReplyRead: reads a reply up to its end of line, with the default one in place of any other that the sender has asked for.
- Allocation of the decoder's state and of the list of code lengths, which the program also checks.
- KermitTheorems.ExactlyOnce: the length and sequence characters of every packet the receiver finds arrive, as the program assumes, and a packet that passes all checks is what was sent.
- The published CRC table of 256 constants: the table is the one that `make_crc_table` computes.
- EnvStore.Environment.SetEnv: what else changes with `ethaddr`, `ipaddr` and `loadaddr`, and the dialogue on the console when the line speed changes, are not modelled; that the old checksum does not match is stated for a store of one variable, because in general two stores can have the same one.
- The rest of `common/vsprintf.c`, and `common/s_record.c`: printing of numbers and hexadecimal records, which would add easier round trips.
- Drivers, command handlers, flash and disk code.
