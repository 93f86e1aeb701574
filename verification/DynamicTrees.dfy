// The trees of a dynamic block: inflate_trees_bits, inflate_trees_dynamic, and
// the part of inflate_blocks that reads the code lengths.
module DynamicTrees {
  import opened ReturnCodes
  import opened Words
  import opened Canonical
  import opened HuffmanTables
  import opened WideTables
  import opened TableMemory
  import opened TableBuilder
  import opened HuftTheorems
  import opened BitStream
  import opened BitInput
  import opened InflateSpec
  import opened CodesState
  import opened DynamicSpec
  import opened BuiltTrees

  // Table entries that are always enough: for the bit length tree, the literal
  // tree, the distance tree, and the latter two together.
  const BITS_ENTRIES: nat := 129
  const LIT_ENTRIES: nat := 9873
  const DIST_ENTRIES: nat := 1175
  const TREE_ENTRIES: nat := LIT_ENTRIES + DIST_ENTRIES

  const BITLENS: Alphabet := Alphabet(19, [], [])

  // ------------------------------------------------------------ bit length tree

  /** One lookup decodes a code length symbol; for an empty code there is no table. */
  ghost predicate BitsTable(tb: seq<Huft>, bb: nat, bl: seq<nat>) {
    bb <= 7 && (AllZero(bl) ==> tb == []) && forall str: nat :: SymbolAt(bl, str) >= 0 ==> BitsEntry(tb, bb, bl, str)
  }

  ghost predicate BitsEntry(tb: seq<Huft>, bb: nat, bl: seq<nat>, str: nat) {
    var sym := SymbolAt(bl, str);
    sym >= 0 && Low(bb, str) < |tb| && bl[sym] <= bb
    && tb[Low(bb, str)].bits == bl[sym] && tb[Low(bb, str)].more == sym
  }

  lemma OneTable(b: seq<nat>, cs: CodeSet, tables: seq<seq<Huft>>, places: seq<Place>, junk: (nat, nat) -> Huft)
    requires ValidLengths(b) && |b| == 19 && Built(cs, b, BITLENS, tables, places, junk)
    requires cs.l == cs.g <= 7 && !AllZero(b)
    ensures |tables| > 0 && BitsTable(tables[0], cs.l, b)
  {
    hide Pow2, Rev, Low, Shr, LenFrom, LenOf, Position, Beyond, First, Offset, Filled;
    forall str: nat | SymbolAt(b, str) >= 0 ensures BitsEntry(tables[0], cs.l, b, str) {
      ZeroShift(str);
      assert Low(0, str) == 0 by { LowNothing(str); }
      SlotIsOK(cs, tables, places, 0, str);
      SlotDecides(cs, places, 0, str, tables[0][Low(cs.l, str)]);
      SymbolPosition(cs, b, SymbolAt(b, str), str);
      PositionNat(cs, str);
    }
  }

  lemma LowNothing(str: nat)
    ensures Low(0, str) == 0
  {
  }

  /** inflate_trees_bits */
  method InflateTreesBits(bl: seq<nat>, memory: nat, junk: (nat, nat) -> Huft) returns (rc: int, tb: seq<Huft>, bb: nat)
    requires |bl| == 19 && forall i :: 0 <= i < 19 ==> bl[i] <= 7
    ensures rc == Z_OK || rc == Z_DATA_ERROR || rc == Z_MEM_ERROR
    ensures rc == Z_OK ==> Accepted(bl) && BitsTable(tb, bb, bl)
    ensures rc == Z_DATA_ERROR ==> !Accepted(bl)
    ensures rc == Z_MEM_ERROR <==> memory < Needed(bl, 7)
  {
    hide Kraft, Count, Beyond, First, Pow2, Filled, Placed, WidthsExplained, AtLevels, UntouchedIn, Shape, Entries;
    var r, tables, bits, left, cs, places := HuftBuild(bl, BITLENS, 7, memory, junk);
    tb, bb := [], bits;
    rc := if r == Z_BUF_ERROR then Z_DATA_ERROR else r;
    AcceptedIs(bl);
    if AllZero(bl) {
      NothingCoded(bl);
    } else if r != Z_DATA_ERROR {
      NeededIs(bl, 7, cs);
      if rc == Z_OK {
        ShortLengths(bl, cs.g, 7);
        OneTable(bl, cs, tables, places, junk);
        tb := tables[0];
      }
    }
  }

  lemma FewNeeded(bl: seq<nat>)
    requires |bl| == 19 && forall i :: 0 <= i < 19 ==> bl[i] <= 7
    ensures Needed(bl, 7) <= BITS_ENTRIES
  {
    hide Kraft, Count, Pow2, Beyond, Placed, Entries;
    if Needed(bl, 7) > 0 {
      var cs: CodeSet :| Prepared(cs, bl, cs.al, 7) && Needed(bl, 7) == Entries(cs);
      ShortLengths(bl, cs.g, 7);
      OneTableSize(cs);
    }
  }

  lemma OneTableSize(cs: CodeSet)
    requires ValidSet(cs) && cs.l == cs.g <= 7 && exists k :: 0 < k <= cs.l && cs.c[k] > 0
    ensures Entries(cs) <= BITS_ENTRIES
  {
    SmallPowers();
    hide Pow2, LevelEntries, WideJump;
    NoJump(cs);
    RootSize(cs);
    Pow2Mono(cs.l, 7);
  }

  lemma NothingCoded(b: seq<nat>)
    requires AllZero(b)
    ensures forall str: nat :: SymbolAt(b, str) == -1
  {
  }

  lemma AcceptedIs(b: seq<nat>)
    requires ValidLengths(b)
    ensures AllZero(b) ==> Accepted(b)
  {
    if AllZero(b) { KraftOfNone(b); }
  }

  lemma ShortLengths(b: seq<nat>, g: nat, bound: nat)
    requires Count(b, g) > 0 && forall i :: 0 <= i < |b| ==> b[i] <= bound
    ensures g <= bound
  {
    HasOne(b, g);
  }

  // --------------------------------------------------- literal and distance trees

  lemma {:induction false} KraftBound(b: seq<nat>, l: nat)
    requires Short(b) && l <= BMAX && forall i :: 0 <= i < |b| ==> b[i] == 0 || b[i] >= l
    ensures Kraft(b) <= |b| * Pow2(BMAX - l)
  {
    hide Pow2;
    if |b| > 0 {
      var n := |b| - 1;
      KraftBound(b[..n], l);
      if b[n] > 0 { Pow2Mono(BMAX - b[n], BMAX - l); }
      MulSucc(n, Pow2(BMAX - l));
    }
  }

  /** A complete code of `n` symbols has a code of at most log2(n) bits. */
  lemma ShortestFits(b: seq<nat>, l: nat)
    requires ValidLengths(b) && l <= BMAX && Kraft(b) == Pow2(BMAX) && forall k :: 0 < k < l ==> Count(b, k) == 0
    ensures Pow2(l) <= |b|
  {
    hide Pow2, Kraft, Count;
    forall i | 0 <= i < |b| ensures b[i] == 0 || b[i] >= l { RankBelow(b, i); }
    KraftBound(b, l);
    Pow2Add(l, BMAX - l);
    if |b| < Pow2(l) { MulMonoStrict(|b|, Pow2(l), Pow2(BMAX - l)); }
  }

  /** Nine bits for up to 288 literals and six for up to 30 distances are enough
      for the tables to meet the lookahead assumptions. */
  lemma WidthsWork(b: seq<nat>, al: Alphabet, m: nat, cs: CodeSet)
    requires Accepted(b) && !AllZero(b) && Prepared(cs, b, al, m)
    requires m == 9 || (m == 6 && |b| <= 30)
    requires Kraft(b) == Pow2(BMAX) ==> cs.c == Counts(b)
    ensures cs.l <= m && m <= LOOKUP_BITS && !WideJump(cs)
  {
    hide Kraft, Count, Pow2, Placed, Beyond, Complete;
    if Kraft(b) == Pow2(BMAX) {
      if cs.l > m { ShortestFits(b, cs.l); TooMany(cs.l, m); }
      if cs.l >= 6 { TooMany(cs.l + 1, 6); }
    } else {
      ShortLengths(b, cs.g, 1);
    }
    CallersAreSafe(b, cs);
  }

  /** How many entries one of the two trees takes at most. */
  function TreeBound(m: nat): nat {
    if m == 9 then LIT_ENTRIES else DIST_ENTRIES
  }

  lemma TreeSize(b: seq<nat>, al: Alphabet, m: nat, cs: CodeSet)
    requires Accepted(b) && !AllZero(b) && Prepared(cs, b, al, m)
    requires m == 9 || (m == 6 && |b| <= 30)
    requires Kraft(b) == Pow2(BMAX) ==> cs.c == Counts(b)
    ensures Entries(cs) <= TreeBound(m)
  {
    SmallPowers();
    hide Kraft, Count, Pow2, Placed, Beyond, Complete, LevelEntries, WideJump, Accepted, CodesFrom;
    WidthsWork(b, al, m, cs);
    RootSize(cs);
    Pow2Mono(cs.l, m);
    if cs.l < cs.g {
      CodesWithin(b, al, m, cs);
      LevelSize(cs, 1, cs.l);
      assert Entries(cs) == LevelEntries(cs, 0, Pow2(0)) + EntriesFrom(cs, cs.l);
      if m == 9 {
        Pow2Mono(Limit(cs, 9), 6);
        assert EntriesFrom(cs, 9) == LevelEntries(cs, 9, Pow2(9));
        TwoLevels(CodesFrom(cs.c, 1), Pow2(Limit(cs, 9)));
      } else {
        Pow2Mono(Limit(cs, 6), 6);
        assert EntriesFrom(cs, 6) == LevelEntries(cs, 6, Pow2(6)) + if 12 < cs.g then EntriesFrom(cs, 12) else 0;
        if 12 < cs.g {
          assert EntriesFrom(cs, 12) == LevelEntries(cs, 12, Pow2(12));
          LevelSize(cs, 2, 12);
          Pow2Mono(Limit(cs, 12), 3);
          ThreeLevels(CodesFrom(cs.c, 1), Pow2(Limit(cs, 6)), Pow2(Limit(cs, 12)));
        } else {
          ThreeLevels(CodesFrom(cs.c, 1), Pow2(Limit(cs, 6)), 0);
        }
      }
    }
  }

  lemma TwoLevels(n: nat, x: nat)
    requires n <= 288 && x <= 64
    ensures n / 2 * (x + 1) <= 9360
  {
    MulMono(n / 2, 144, x + 1);
  }

  lemma ThreeLevels(n: nat, x: nat, y: nat)
    requires n <= 30 && x <= 64 && y <= 8
    ensures n / 2 * (x + 1) <= 975 && n / 2 * (y + 1) <= 135
  {
    MulMono(n / 2, 15, x + 1);
    MulMono(n / 2, 15, y + 1);
  }

  /** A code of more than one bit length has no more codes than symbols. */
  lemma CodesWithin(b: seq<nat>, al: Alphabet, m: nat, cs: CodeSet)
    requires Accepted(b) && !AllZero(b) && Prepared(cs, b, al, m) && cs.l < cs.g && cs.l <= m
    requires Kraft(b) == Pow2(BMAX) ==> cs.c == Counts(b)
    ensures CodesFrom(cs.c, 1) <= |b| && cs.l == m
  {
    hide Kraft, Count, Pow2, Placed, Beyond, Complete, CodesFrom;
    if Kraft(b) != Pow2(BMAX) { ShortLengths(b, cs.g, 1); }
    OffsetTotal(b);
    CodesAreOffset(cs.c, 1);
  }

  lemma TooMany(l: nat, m: nat)
    requires l > m && (m == 9 || m == 6)
    ensures Pow2(l) > (if m == 9 then N_MAX else 30)
  {
    Pow2Mono(m + 1, l);
    SmallPowers();
  }

  lemma TreeBuilt(b: seq<nat>, al: Alphabet, m: nat, cs: CodeSet, tables: seq<seq<Huft>>, places: seq<Place>,
                  junk: (nat, nat) -> Huft)
    requires Accepted(b) && !AllZero(b) && ValidAlphabet(al) && Built(cs, b, al, tables, places, junk)
    requires (m == 9 || (m == 6 && |b| <= 30)) && Prepared(cs, b, al, m)
    requires Kraft(b) == Pow2(BMAX) ==> cs.c == Counts(b)
    ensures TreeFor(tables, cs.l, al, b)
  {
    hide Kraft, Count, Pow2, Rev, LenFrom, AllFilled, WidthsExplained, AtLevels, UntouchedIn, ValidSet, Describes,
         TreeOK;
    WidthsWork(b, al, m, cs);
    BuiltTree(b, al, cs, tables, places, junk);
  }

  /** A tree that is accepted never takes more than its bound. */
  lemma NeededBound(b: seq<nat>, m: nat)
    requires Accepted(b) && (m == 9 || (m == 6 && |b| <= 30))
    ensures Needed(b, m) <= TreeBound(m)
  {
    hide Kraft, Count, Beyond, Pow2, Entries, Placed;
    if Needed(b, m) > 0 {
      var cs: CodeSet :| Prepared(cs, b, cs.al, m) && Needed(b, m) == Entries(cs);
      if Kraft(b) == Pow2(BMAX) { NoDummies(b, cs); }
      TreeSize(b, cs.al, m, cs);
    }
  }

  /** Complete lengths leave no room for dummies. */
  lemma NoDummies(b: seq<nat>, cs: CodeSet)
    requires ValidLengths(b) && Kraft(b) == Pow2(BMAX) && ValidSet(cs) && Describes(cs, b)
    ensures cs.c == Counts(b)
  {
    hide Kraft, Count, Beyond, Pow2, Placed;
    KraftAtMax(b, cs.g);
    LastCount(cs.c, Counts(b), cs.g);
  }

  /** One of the two trees of a block. */
  method BuildTree(b: seq<nat>, al: Alphabet, m: nat, memory: nat, junk: (nat, nat) -> Huft)
    returns (rc: int, tables: seq<seq<Huft>>, bits: nat, left: nat)
    requires ValidLengths(b) && ValidAlphabet(al) && (m == 9 || (m == 6 && |b| <= 30))
    ensures rc == if memory < Needed(b, m) then Z_MEM_ERROR else if Accepted(b) then Z_OK else Z_DATA_ERROR
    ensures rc == Z_OK ==> TreeFor(tables, bits, al, b) && left == memory - Needed(b, m)
  {
    hide Kraft, Count, Beyond, First, Pow2, Built, TreeOK, ValidSet, Describes, Entries;
    ghost var cs, places;
    rc, tables, bits, left, cs, places := HuftBuild(b, al, m, memory, junk);
    if rc == Z_BUF_ERROR { rc := Z_DATA_ERROR; }
    AcceptedIs(b);
    if Codable(b) { NeededIs(b, m, cs); }
    if rc == Z_OK && !AllZero(b) { TreeBuilt(b, al, m, cs, tables, places, junk); }
  }

  /** There are not enough table entries for the literal tree, or for the
      distance tree after it. */
  ghost predicate TreesShort(lit: seq<nat>, dst: seq<nat>, memory: nat) {
    memory < Needed(lit, 9) || (Accepted(lit) && memory < Needed(lit, 9) + Needed(dst, 6))
  }

  /** inflate_trees_dynamic */
  method InflateTreesDynamic(lit: seq<nat>, dst: seq<nat>, memory: nat, junk: (nat, nat) -> Huft)
      returns (rc: int, tr: Trees)
    requires ValidCodes(Codes(lit, dst))
    ensures rc == if TreesShort(lit, dst, memory) then Z_MEM_ERROR
                  else if Accepted(lit) && Accepted(dst) then Z_OK else Z_DATA_ERROR
    ensures rc == Z_OK ==> TreesOK(tr, Codes(lit, dst))
  {
    hide Accepted, TreeFor;
    tr := Trees([], 0, [], 0);
    AlphabetsValid();
    var tl, bl, left;
    rc, tl, bl, left := BuildTree(lit, LITLEN, 9, memory, junk);
    if rc != Z_OK { return; }
    var td, bd;
    rc, td, bd, left := BuildTree(dst, DIST, 6, left, junk);
    if rc != Z_OK { return; }
    tr := Trees(tl, bl, td, bd);
  }

  // ---------------------------------------------------- reading the code lengths

  /** What the code lengths of the block whose header begins at `begin` are read
      to be. */
  ghost function AllLengths(input: seq<Byte>, begin: nat): LengthsRead {
    var t := Low(14, Bits(input, begin));
    ReadLengths(BitLengths(BitCodes(t), Bits(input, begin + 14)), TotalCodes(t), input, begin + 14 + 3 * BitCodes(t),
      [])
  }

  /** There are not enough table entries for the code length code. */
  ghost predicate BitsShort(input: seq<Byte>, begin: nat, memory: nat) {
    var t := Low(14, Bits(input, begin));
    memory < Needed(BitLengths(BitCodes(t), Bits(input, begin + 14)), 7)
  }

  /** The memory is exhausted before the header turns out good or bad. */
  ghost predicate HeaderShort(input: seq<Byte>, begin: nat, memory: nat) {
    var t := Low(14, Bits(input, begin));
    SizesOK(t)
    && (BitsShort(input, begin, memory)
        || (Accepted(BitLengths(BitCodes(t), Bits(input, begin + 14))) && AllLengths(input, begin).Lengths?
            && var lens := AllLengths(input, begin).lens;
               TreesShort(lens[..LitCodes(t)], lens[LitCodes(t)..], memory)))
  }

  /** A header that is bad before the memory matters. */
  lemma BadHeader(input: seq<Byte>, begin: nat, memory: nat)
    requires var t := Low(14, Bits(input, begin));
             !SizesOK(t)
             || (!BitsShort(input, begin, memory)
                 && (!Accepted(BitLengths(BitCodes(t), Bits(input, begin + 14)))
                     || AllLengths(input, begin) == Overrun))
    ensures ReadPreamble(input, begin) == BadPreamble && !HeaderShort(input, begin, memory)
  {
    hide Low, Pow2, Shr, Bits, Accepted, BitLengths, ReadLengths, Needed;
  }

  lemma ShortOfBits(input: seq<Byte>, begin: nat, memory: nat)
    requires SizesOK(Low(14, Bits(input, begin))) && BitsShort(input, begin, memory)
    ensures HeaderShort(input, begin, memory)
  {
    hide Low, Bits, Accepted, BitLengths, ReadLengths, Needed;
  }

  /** A good header is never short of 11048 entries. */
  lemma GoodFits(input: seq<Byte>, begin: nat, memory: nat)
    requires ReadPreamble(input, begin).Preamble? && memory >= TREE_ENTRIES
    ensures !HeaderShort(input, begin, memory)
  {
    hide Low, Pow2, Shr, Bits, Accepted, BitLengths, ReadLengths, Needed;
    var t := Low(14, Bits(input, begin));
    var lens := AllLengths(input, begin).lens;
    BitLengthsSmall(BitCodes(t), Bits(input, begin + 14));
    FewNeeded(BitLengths(BitCodes(t), Bits(input, begin + 14)));
    NeededBound(lens[..LitCodes(t)], 9);
    NeededBound(lens[LitCodes(t)..], 6);
  }

  /** Reading on at `pos` after the lengths `lens` ends as the whole reading does. */
  ghost predicate LeadsOn(input: seq<Byte>, begin: nat, table: nat, pos: nat, lens: seq<nat>) {
    var bl := BitLengths(BitCodes(table), Bits(input, begin + 14));
    |lens| <= TotalCodes(table) && Short(lens)
    && ReadLengths(bl, TotalCodes(table), input, begin + 14 + 3 * BitCodes(table), []) == ReadLengths(bl,
      TotalCodes(table), input, pos, lens)
  }

  /** The next code length symbol leads on, or the header is bad. */
  lemma SymbolLeadsOn(input: seq<Byte>, begin: nat, table: nat, pos: nat, lens: seq<nat>)
    requires table == Low(14, Bits(input, begin)) && SizesOK(table)
    requires Accepted(BitLengths(BitCodes(table), Bits(input, begin + 14)))
    requires LeadsOn(input, begin, table, pos, lens) && |lens| < TotalCodes(table)
             && ReadPreamble(input, begin) != Undecided
    ensures var bl := BitLengths(BitCodes(table), Bits(input, begin + 14));
            var sym := SymbolAt(bl, Bits(input, pos));
            sym >= 0
            && if sym < 16 then LeadsOn(input, begin, table, pos + bl[sym], lens + Repeat(sym, 1))
               else
                 var n := LeastRepeat(sym) + Low(RepeatBits(sym), Bits(input, pos + bl[sym]));
                 if |lens| + n > TotalCodes(table)
                 || (sym == 16 && |lens| < 1) then AllLengths(input, begin) == Overrun
                 else LeadsOn(input, begin, table, pos + bl[sym] + RepeatBits(sym),
                              lens + Repeat(if sym == 16 then lens[|lens| - 1] else 0, n))
  {
    hide Low, Pow2, Shr, Bits, Accepted, SymbolAt, RepeatBits, BitLengths;
    var bl := BitLengths(BitCodes(table), Bits(input, begin + 14));
    var r := ReadOne(bl, TotalCodes(table), input, pos, lens);
    assert forall v: nat :: Repeat(v, 1) == [v];
  }

  /** The submode of inflate_blocks that decodes the trees of a block. */
  class TreeReader {
    const inp: BitReader
    const table: nat          // HLIT, HDIST and HCLEN as they were read
    const blens: array<nat>   // lengths, first of the code length code, then all
    var index: nat            // how many of them are there
    var bb: nat               // how many bits a lookup takes
    var tb: seq<Huft>         // the table of the code length code
    ghost const begin: nat    // where the header begins

    /** The lengths of the code length code that the header says. */
    ghost function Said(): (r: seq<nat>)
      reads this, inp
      ensures |r| == 19
    {
      BitLengths(BitCodes(table), Bits(inp.input, begin + 14))
    }

    ghost predicate Base()
      reads this, inp
    {
      inp.Valid() && table == Low(14, Bits(inp.input, begin)) && SizesOK(table) && BitCodes(table) <= 19
      && blens.Length == TotalCodes(table)
    }

    /** BTREE: the lengths of the first `index` symbols of the order are there. */
    ghost predicate InBits()
      reads this, inp, blens
    {
      Base() && index <= 19
      && inp.Pos() == begin + 14 + 3 * (if index < BitCodes(table) then index else BitCodes(table))
      && BordersRead(blens[..], index, Said())
    }

    /** DTREE: the first `index` code lengths are there; none has taken more than
        seven bits. */
    ghost predicate InLengths()
      reads this, inp, blens
    {
      Base() && Accepted(Said()) && BitsTable(tb, bb, Said())
      && index <= TotalCodes(table) && LeadsOn(inp.input, begin, table, inp.Pos(), blens[..index])
      && inp.Pos() <= begin + 14 + 3 * BitCodes(table) + 7 * index
    }

    /** TABLE has read the sizes. */
    constructor (inp: BitReader, table: nat, ghost begin: nat)
      requires inp.Valid() && inp.Pos() == begin + 14 && table == Low(14, Bits(inp.input, begin)) && SizesOK(table)
      ensures InBits() && index == 0 && this.inp == inp && this.table == table && this.begin == begin && fresh(blens)
    {
      this.inp, this.table, this.begin := inp, table, begin;
      blens := new nat[TotalCodes(table)];
      index, bb, tb := 0, 0, [];
      new;
      FewBitCodes(table, Bits(inp.input, begin));
    }

    /** Reads the lengths of the code length code; those not written are zero. */
    method ReadBitLengths(r0: int) returns (ok: bool, r: int)
      requires InBits() && inp.k <= BMAX
      modifies this`index, blens, inp
      ensures InBits() && inp.k <= BMAX && inp.p + inp.n == old(inp.p + inp.n) && inp.Pos() >= old(inp.Pos())
      ensures if ok then index == 19 else inp.n == 0 && inp.k < 3
      ensures r == r0 || r == Z_OK
    {
      hide Low, Pow2, Shr, Bits, BordersRead;
      r := r0;
      while index < BitCodes(table)
        invariant InBits() && inp.k <= BMAX && inp.p + inp.n == old(inp.p + inp.n) && inp.Pos() >= old(inp.Pos())
        invariant r == r0 || r == Z_OK
      {
        var progress;
        ok, progress := inp.NeedBits(3);
        r := if progress then Z_OK else r;
        if !ok { return; }
        inp.PeekIs(3);
        StoreBits(inp.Peek(3));
        inp.DumpBits(3);
      }
      while index < 19
        invariant InBits() && inp.k <= BMAX && inp.p + inp.n == old(inp.p + inp.n) && inp.Pos() >= old(inp.Pos())
        invariant BitCodes(table) <= index
      {
        StoreBits(0);
      }
      ok := true;
    }

    /** `blens[border[index++]] = v` */
    method StoreBits(v: nat)
      requires Base() && index < 19 && BordersRead(blens[..], index, Said())
      requires v == if index < BitCodes(table) then Low(3, Bits(inp.input, begin + 14 + 3 * index)) else 0
      modifies this`index, blens
      ensures Base() && index == old(index) + 1 && BordersRead(blens[..], index, Said())
    {
      hide Low, Pow2, Shr, Bits, BordersRead;
      Ranked(index);
      BitLengthAt(BitCodes(table), inp.input, begin + 14, index);
      ReadBorder(blens[..], index, Said(), v);
      blens[BORDER[index]] := v;
      index := index + 1;
    }

    /** Builds the bit length tree. */
    method BuildBits(memory: nat, junk: (nat, nat) -> Huft) returns (rc: int)
      requires InBits() && index == 19
      modifies this`index, this`bb, this`tb
      ensures Base() && rc == if BitsShort(inp.input, begin, memory) then Z_MEM_ERROR
                              else if Accepted(Said()) then Z_OK else Z_DATA_ERROR
      ensures if rc == Z_OK then InLengths() && index == 0 else rc == Z_MEM_ERROR ==> InBits() && index == 19
    {
      hide Low, Pow2, Shr, Bits, BordersRead, Accepted, BitsTable;
      AllRead(blens[..], Said());
      BitLengthsSmall(BitCodes(table), Bits(inp.input, begin + 14));
      var tb', bb';
      rc, tb', bb' := InflateTreesBits(blens[..19], memory, junk);
      if rc == Z_OK {
        tb, bb, index := tb', bb', 0;
        assert blens[..0] == [];
      }
    }

    /** The lengths read so far lead to an overrun. */
    ghost predicate Overran()
      reads this, inp
    {
      Base() && Accepted(Said()) && AllLengths(inp.input, begin) == Overrun
    }

    /** The outcome of the header does not depend on what no code says. */
    ghost predicate Decided()
      reads this, inp
    {
      ReadPreamble(inp.input, begin) != Undecided
    }

    /** What is still to be read begins with a code length symbol. */
    lemma AtSymbol()
      requires InLengths() && index < TotalCodes(table) && Decided()
      ensures BitsEntry(tb, bb, Said(), inp.Rest()) && bb <= 7
    {
      hide Low, Pow2, Shr, Bits, Accepted, SymbolAt, AddLengths, RepeatBits, BitLengths;
    }

    /** DTREE: one code length symbol. */
    method ReadSymbol(r0: int) returns (leave: bool, r: int)
      requires InLengths() && index < TotalCodes(table) && Decided() && inp.k <= BMAX && r0 != Z_DATA_ERROR
      modifies this`index, blens, inp
      ensures inp.Valid() && inp.k <= BMAX && inp.p + inp.n == old(inp.p + inp.n) && inp.Pos() >= old(inp.Pos())
      ensures !leave ==> InLengths() && index > old(index) && (r == r0 || r == Z_OK)
      ensures leave ==> if r == Z_DATA_ERROR then Overran()
                        else InLengths() && inp.n == 0 && inp.k < BMAX && (r == r0 || r == Z_OK)
    {
      hide Low, Pow2, Shr, Bits, Accepted, BitsTable, SymbolAt, ReadLengths, ReadPreamble, LeadsOn, BitLengths;
      AtSymbol();
      SymbolLeadsOn(inp.input, begin, table, inp.Pos(), blens[..index]);
      var t := bb;
      var ok, progress := inp.NeedBits(t);
      r := if progress then Z_OK else r0;
      if !ok { return true, r; }
      inp.PeekIs(t);
      var h := tb[inp.Peek(t)];
      t := h.bits;
      var c := h.more;
      if c < 16 {
        inp.DumpBits(t);
        Append(c, 1);
        leave := false;
      } else {
        leave, r := ReadRepeat(t, c, r);
      }
    }

    /** The code length symbol `c` of `t` bits repeats a length. */
    method ReadRepeat(t: nat, c: nat, r0: int) returns (leave: bool, r: int)
      requires InLengths() && index < TotalCodes(table) && Decided() && inp.k <= BMAX && r0 != Z_DATA_ERROR
      requires 16 <= c < 19 && c == SymbolAt(Said(), inp.Rest()) && t == Said()[c] <= 7
      modifies this`index, blens, inp
      ensures inp.Valid() && inp.k <= BMAX && inp.p + inp.n == old(inp.p + inp.n) && inp.Pos() >= old(inp.Pos())
      ensures !leave ==> InLengths() && index > old(index) && (r == r0 || r == Z_OK)
      ensures leave ==> if r == Z_DATA_ERROR then Overran()
                        else InLengths() && inp.n == 0 && inp.k < BMAX && (r == r0 || r == Z_OK)
    {
      hide Low, Pow2, Shr, Bits, Accepted, BitsTable, SymbolAt, ReadLengths, ReadPreamble, LeadsOn, BitLengths;
      var i := if c == 18 then 7 else c - 14;
      var ok, progress := inp.NeedBits(t + i);
      r := if progress then Z_OK else r0;
      if !ok { return true, r; }
      leave := RepeatLength(t, i, c);
      if leave { r := Z_DATA_ERROR; }
    }

    /** All bits of the repetition are there. */
    method RepeatLength(t: nat, i: nat, c: nat) returns (bad: bool)
      requires InLengths() && index < TotalCodes(table) && Decided() && inp.k >= t + i
      requires 16 <= c < 19 && c == SymbolAt(Said(), inp.Rest()) && t == Said()[c] <= 7
               && i == if c == 18 then 7 else c - 14
      modifies this`index, blens, inp`b, inp`k, inp`have
      ensures inp.Valid() && inp.k == old(inp.k) - (t + i) && inp.Pos() >= old(inp.Pos())
      ensures if bad then Overran() else InLengths() && index > old(index)
    {
      hide Low, Pow2, Shr, Bits, Accepted, BitsTable, SymbolAt, ReadLengths, ReadPreamble, LeadsOn, BitLengths;
      SymbolLeadsOn(inp.input, begin, table, inp.Pos(), blens[..index]);
      ghost var pos := inp.Pos();
      var j := if c == 18 then 11 else 3;
      inp.DumpBits(t);
      inp.PeekIs(i);
      j := j + inp.Peek(i);
      inp.DumpBits(i);
      assert inp.Pos() == pos + t + i <= pos + 7 * j;
      if index + j > TotalCodes(table) || (c == 16 && index < 1) {
        return true;
      }
      Append(if c == 16 then blens[index - 1] else 0, j);
      bad := false;
    }

    /** `do { blens[i++] = c; } while (--j)` */
    method Append(c: nat, n: nat)
      requires index + n <= blens.Length && n > 0
      modifies this`index, blens
      ensures index == old(index) + n && blens[..index] == old(blens[..index]) + Repeat(c, n)
    {
      var i, j := index, n;
      while j > 0
        invariant 0 <= j <= n && index == old(index) && i == index + n - j
        invariant blens[..i] == old(blens[..index]) + Repeat(c, n - j)
      {
        blens[i] := c;
        i, j := i + 1, j - 1;
      }
      index := i;
    }

    /** DTREE: reads the code lengths. */
    method ReadCodeLengths(r0: int) returns (ok: bool, r: int)
      requires InLengths() && Decided() && inp.k <= BMAX && r0 != Z_DATA_ERROR
      modifies this`index, blens, inp
      ensures inp.Valid() && inp.k <= BMAX && inp.p + inp.n == old(inp.p + inp.n) && inp.Pos() >= old(inp.Pos())
      ensures ok ==> InLengths() && index == TotalCodes(table) && (r == r0 || r == Z_OK)
      ensures !ok ==> if r == Z_DATA_ERROR then Overran()
                      else InLengths() && inp.n == 0 && inp.k < BMAX && (r == r0 || r == Z_OK)
    {
      hide Low, Pow2, Shr, Bits, Accepted, BitsTable, SymbolAt, ReadLengths, ReadPreamble, LeadsOn, BitLengths;
      r := r0;
      while index < TotalCodes(table)
        invariant InLengths() && Decided() && inp.k <= BMAX && inp.p + inp.n == old(inp.p + inp.n)
        invariant inp.Pos() >= old(inp.Pos()) && (r == r0 || r == Z_OK)
      {
        var leave;
        leave, r := ReadSymbol(r);
        if leave { return false, r; }
      }
      ok := true;
    }

    /** Builds the trees of the block. */
    method BuildTrees(memory: nat, junk: (nat, nat) -> Huft) returns (rc: int, tr: Trees, ghost codes: Codes)
      requires InLengths() && index == TotalCodes(table) && !BitsShort(inp.input, begin, memory)
      ensures rc == Z_MEM_ERROR <==> HeaderShort(inp.input, begin, memory)
      ensures rc == Z_OK || rc == Z_DATA_ERROR || rc == Z_MEM_ERROR
      ensures rc == Z_OK ==> ReadPreamble(inp.input, begin) == Preamble(codes, inp.Pos()) && TreesOK(tr, codes)
      ensures rc == Z_DATA_ERROR ==> ReadPreamble(inp.input, begin) == BadPreamble
    {
      hide Low, Pow2, Shr, Bits, Accepted, BitsTable, SymbolAt, TreesOK, BitLengths;
      var lit := blens[..LitCodes(table)];
      var dst := blens[LitCodes(table)..LitCodes(table) + DistCodes(table)];
      assert blens[..index][LitCodes(table)..] == dst && blens[..index][..LitCodes(table)] == lit;
      rc, tr := InflateTreesDynamic(lit, dst, memory, junk);
      codes := Codes(lit, dst);
    }
  }

  // -------------------------------------------------------------- the border array

  /** The entries at the first `index` places of the order are those of `said`. */
  predicate BordersRead(blens: seq<nat>, index: nat, said: seq<nat>) {
    index <= 19 <= |blens| && |said| == 19
    && forall i :: 0 <= i < index && BORDER[i] < 19 ==> blens[BORDER[i]] == said[BORDER[i]]
  }

  lemma ReadBorder(blens: seq<nat>, index: nat, said: seq<nat>, v: nat)
    requires BordersRead(blens, index, said) && index < 19 && BORDER[index] < 19 && said[BORDER[index]] == v
    ensures BordersRead(blens[BORDER[index] := v], index + 1, said)
  {
  }

  lemma AllRead(blens: seq<nat>, said: seq<nat>)
    requires BordersRead(blens, 19, said)
    ensures blens[..19] == said
  {
    forall s | 0 <= s < 19 ensures blens[s] == said[s] { Ranked(s); }
  }

  lemma BitLengthAt(n: nat, input: seq<Byte>, pos: nat, i: nat)
    requires i < 19 && BORDER[i] < 19
    ensures BitLengths(n, Bits(input, pos))[BORDER[i]] == if i < n then Low(3, Bits(input, pos + 3 * i)) else 0
  {
    Ranked(i);
    BitsSkip(input, pos, 3 * i);
  }

  lemma BitLengthsSmall(n: nat, str: nat)
    ensures forall s :: 0 <= s < 19 ==> BitLengths(n, str)[s] <= 7
  {
    SmallPowers();
  }

  lemma FewBitCodes(t: nat, str: nat)
    requires t == Low(14, str)
    ensures BitCodes(t) <= 19
  {
    SmallPowers();
    assert Pow2(14) == 16384;
  }
}
