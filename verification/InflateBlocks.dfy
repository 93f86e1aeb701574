// inflate_blocks: interprets the blocks of a stream to the last one.
module InflateBlocks {
  import opened ReturnCodes
  import opened Words
  import opened Canonical
  import opened HuffmanTables
  import opened BitStream
  import opened BitInput
  import opened SlidingWindow
  import opened InflateSpec
  import opened CodesState
  import opened InflateCodes
  import opened DynamicSpec
  import opened BlocksSpec
  import opened DynamicTrees
  import opened StreamMemory

  datatype BlockMode =
    | TypeBits   // before the three bits that begin a block
    | Lens       // at the byte boundary before LEN and NLEN
    | StoredMode // `left` bytes of a stored block are still to come
    | Table      // before the sizes of a dynamic block's codes
    | BTree      // before or among the lengths of the code length code
    | DTree      // among the code lengths themselves
    | CodesMode  // `dec` is decoding symbols
    | Dry        // the last block has been read, bytes are pending
    | Done       // everything has been delivered
    | Bad        // the stream is broken; nothing leads out of here

  class Inflater {
    const inp: BitReader
    const win: Window
    const fixed: Trees
    const memory: nat                // table entries the trees of a block may take
    const junk: (nat, nat) -> Huft   // what freshly allocated tables hold
    var mode: BlockMode
    var last: bool          // no block follows the current one
    var left: nat           // in StoredMode, how many bytes are missing
    var trees: TreeReader?  // in BTree and DTree, what reads the header
    var dec: Decoder?       // in CodesMode, what decodes the block
    ghost const origin: Stream
    ghost var a: Stream     // the state at the last step that is complete

    ghost function Inner(): set<object>
      reads this
    {
      (if dec == null then {} else {dec}) + (if trees == null then {} else {trees, trees.blens})
    }

    ghost predicate Base()
      reads this, inp, win, win.data
    {
      inp.Valid() && win.Valid() && TreesOK(fixed, FixedCodes())
      && StreamClean(inp.input, origin) && Leads(inp.input, origin, a) && Affords(inp.input, memory, origin, a)
    }

    ghost predicate Valid()
      reads this, inp, win, win.data, Inner()
    {
      Base() && (mode != Lens && mode != Bad ==> inp.k <= BMAX)
      && match mode
         case TypeBits => a.phase == Header && a.pos == inp.Pos() && a.hist == win.hist
         case Lens => LensOK(inp.input, a, last, inp.Pos(), win.hist)
         case StoredMode => left > 0 && a == Stream(Stored(left), last, inp.Pos(), win.hist) && inp.k == 0
         && inp.have == 0
         case Table => a == Stream(Dynamic, last, inp.Pos(), win.hist)
         case BTree => TreesHere() && trees.InBits()
         case DTree => TreesHere() && trees.InLengths() && !BitsShort(inp.input, a.pos, memory)
         case CodesMode => CodesOK()
         case Dry => a == Stream(Finished, last, inp.Pos(), win.hist) && inp.k < 8
         case Done => a == Stream(Finished, last, inp.Pos(), win.hist) && inp.k < 8 && win.Pending() == 0
         case Bad => a.phase == Broken && a.hist == win.hist
    }

    ghost predicate TreesHere()
      requires inp.Valid() && win.Valid()
      reads this, inp, win, win.data
    {
      trees != null && trees.inp == inp && a == Stream(Dynamic, last, trees.begin, win.hist)
    }

    ghost predicate CodesOK()
      requires inp.Valid() && win.Valid()
      reads this, inp, win, win.data, Inner()
    {
      dec != null && dec.inp == inp && dec.win == win && dec.Valid()
      && a == Stream(Coded(dec.codes), last, dec.begin.pos, dec.begin.hist)
      && (dec.mode.End? ==> win.Pending() == 0)
    }

    /** inflate_blocks_new */
    constructor (inp: BitReader, win: Window, fixed: Trees, memory: nat, junk: (nat, nat) -> Huft)
      requires inp.Valid() && win.Valid() && TreesOK(fixed, FixedCodes()) && inp.k == 0
      requires StreamClean(inp.input, Stream(Header, false, inp.Pos(), win.hist))
      ensures Valid() && this.inp == inp && this.win == win && this.memory == memory
      ensures mode == TypeBits && dec == null && trees == null
      ensures a == origin == Stream(Header, false, inp.Pos(), win.hist)
    {
      this.inp, this.win, this.fixed := inp, win, fixed;
      this.memory, this.junk := memory, junk;
      mode, last, left, trees, dec := TypeBits, false, 0, null, null;
      a, origin := Stream(Header, false, inp.Pos(), win.hist), Stream(Header, false, inp.Pos(), win.hist);
      LeadsStart(inp.input, Stream(Header, false, inp.Pos(), win.hist));
      AffordsStart(inp.input, memory, Stream(Header, false, inp.Pos(), win.hist));
    }

    /** What can keep the inflater from going on. */
    ghost predicate Stalled()
      reads this, inp, win
    {
      (inp.n == 0 && inp.k < (if mode == CodesMode then BMAX else 32)) || (win.availOut == 0 && win.Pending() > 0)
    }

    ghost method Advance()
      requires Base() && !ShortAt(inp.input, memory, a)
      modifies this`a
      ensures Base() && a == StreamStep(inp.input, old(a))
    {
      hide StreamClean, Leads, Affords, TreesOK, Holds, StreamStep, ShortAt;
      LeadsStep(inp.input, origin, a);
      AffordsStep(inp.input, memory, origin, a);
      a := StreamStep(inp.input, a);
    }

    /** The three type bits have been read and dumped. */
    ghost predicate TypeRead(t: nat)
      reads this, inp, win, win.data
    {
      Base() && inp.k <= BMAX && a.phase == Header && t == Low(3, Bits(inp.input, a.pos)) && t < 8
      && inp.Pos() == a.pos + 3 && a.hist == win.hist && last == (t % 2 == 1)
    }

    /** TYPE: the three bits of a block header. */
    method StepType(r0: int) returns (leave: bool, r: int)
      requires Valid() && mode == TypeBits
      modifies this`mode, this`last, this`dec, this`a, inp
      ensures Valid() && inp.p + inp.n == old(inp.p + inp.n) && inp.Pos() >= old(inp.Pos())
      ensures dec == old(dec) || fresh(dec)
      ensures !leave ==> inp.Pos() > old(inp.Pos()) && (r == r0 || r == Z_OK)
      ensures leave ==>
                (mode == TypeBits && inp.n == 0 && inp.k < 32 && (r == r0 || r == Z_OK))
                || (mode == Bad && r == Z_DATA_ERROR)
    {
      hide StreamClean, Leads, Affords, HeaderShort, TreesOK, Holds, Low, Pow2, Shr, Bits;
      var ok, progress := inp.NeedBits(3);
      r := if progress then Z_OK else r0;
      if !ok { return true, r; }
      inp.PeekIs(3);
      var t := inp.Peek(3);
      TypeRange(t, inp.b);
      last := t % 2 == 1;
      leave := false;
      inp.DumpBits(3);
      if t / 2 == 0 {
        StoredBlock(t);
      } else if t / 2 == 1 {
        FixedBlock(t);
      } else {
        OtherBlock(t);
        if mode == Bad { leave, r := true, Z_DATA_ERROR; }
      }
    }

    /** Goes to the byte boundary. */
    method StoredBlock(t: nat)
      requires TypeRead(t) && t / 2 == 0
      modifies this`mode, inp
      ensures Valid() && mode == Lens && inp.p + inp.n == old(inp.p + inp.n) && inp.Pos() >= old(inp.Pos())
    {
      hide StreamClean, Leads, Affords, HeaderShort, TreesOK, Holds, Low, Pow2, Shr, Bits;
      var skip := inp.k % 8;
      inp.DumpBits(skip);
      mode := Lens;
    }

    /** Sets up the decoder with the fixed trees. */
    method FixedBlock(t: nat)
      requires TypeRead(t) && t / 2 == 1
      modifies this`mode, this`dec, this`a
      ensures Valid() && mode == CodesMode && fresh(dec)
    {
      hide StreamClean, Leads, Affords, HeaderShort, TreesOK, Holds, Low, Pow2, Shr, Bits, Clean, ModeOK, Reaches,
           FixedCodes;
      Advance();
      BlockClean(inp.input, origin, a);
      dec := new Decoder(fixed, FixedCodes(), inp, win);
      mode := CodesMode;
    }

    /** A dynamic block, or an illegal type. */
    method OtherBlock(t: nat)
      requires TypeRead(t) && t / 2 >= 2
      modifies this`mode, this`a
      ensures Valid() && mode == if t / 2 == 2 then Table else Bad
    {
      hide StreamClean, Leads, Affords, HeaderShort, TreesOK, Holds, Low, Pow2, Shr, Bits;
      Advance();
      mode := if t / 2 == 2 then Table else Bad;
    }

    /** LENS: the two lengths of a stored block. */
    method StepLens(r0: int) returns (leave: bool, r: int)
      requires Valid() && mode == Lens
      modifies this`mode, this`left, this`a, inp
      ensures Valid() && inp.p + inp.n == old(inp.p + inp.n) && inp.Pos() >= old(inp.Pos())
      ensures !leave ==>
                inp.Pos() > old(inp.Pos()) && (mode == StoredMode || mode == TypeBits) && (r == r0 || r == Z_OK)
      ensures leave ==>
                (mode == Lens && inp.n == 0 && inp.k < 32 && (r == r0 || r == Z_OK))
                || (mode == Bad && r == Z_DATA_ERROR)
    {
      hide StreamClean, Leads, Affords, HeaderShort, TreesOK, Holds, Low, Pow2, Shr, Bits;
      AtByte(a.pos);
      var ok, progress := inp.NeedBits(32);
      r := if progress then Z_OK else r0;
      leave := !ok;
      if ok {
        TakeLengths();
        if mode == Bad { leave, r := true, Z_DATA_ERROR; }
      }
    }

    /** Both lengths are in the bit buffer. */
    method TakeLengths()
      requires Base() && LensOK(inp.input, a, last, inp.Pos(), win.hist) && inp.k >= 32
      modifies this`mode, this`left, this`a, inp
      ensures Valid() && inp.p + inp.n == old(inp.p + inp.n) && inp.Pos() >= old(inp.Pos())
      ensures mode == Bad || (inp.Pos() > old(inp.Pos()) && (mode == StoredMode || mode == TypeBits))
    {
      hide StreamClean, Leads, Affords, HeaderShort, TreesOK, Holds, Low, Pow2, Shr, Bits, StoredStep, Step,
           ReadPreamble, LengthsMatch;
      WholeBuffer();
      var b := inp.b;
      Advance();
      if !LengthsMatch(b) {
        mode := Bad;
        return;
      }
      left := Low(16, b);
      inp.Clear();
      mode := if left > 0 then StoredMode else TypeBits;
    }

    lemma AtByte(pos: nat)
      requires inp.Valid() && inp.Pos() == Aligned(pos + 3)
      ensures inp.k % 8 == 0
    {
    }

    lemma WholeBuffer()
      requires inp.Valid() && inp.k >= 32
      ensures inp.k == 32 && inp.b == Low(32, inp.Rest())
    {
    }

    /** STORED: copies what there is of the block. */
    method StepStored(r0: int) returns (leave: bool, r: int)
      requires Valid() && mode == StoredMode
      modifies this`mode, this`left, this`a, inp, win, win.data
      ensures Valid() && inp.p + inp.n == old(inp.p + inp.n) && inp.Pos() >= old(inp.Pos())
      ensures |win.out| + win.availOut == old(|win.out| + win.availOut) && (r == r0 || r == Z_OK)
      ensures !leave ==> inp.Pos() > old(inp.Pos()) && (mode == StoredMode || mode == TypeBits || mode == Dry)
      ensures leave ==> mode == StoredMode && Stalled()
    {
      hide StreamClean, Leads, Affords, HeaderShort, TreesOK, Holds, Low, Pow2, Shr, Bits;
      r := r0;
      if inp.n == 0 { return true, r; }
      var ok;
      ok, r := win.NeedOut(r);
      if !ok { return true, r; }
      var t := left;
      if t > inp.n { t := inp.n; }
      if t > win.Avail() { t := win.Avail(); }
      CopyStored(t);
      leave := false;
      if left != 0 { return; }
      mode := if last then Dry else TypeBits;
    }

    /** `zmemcpy(q, p, t)` with the bookkeeping around it. */
    method CopyStored(t: nat)
      requires Valid() && mode == StoredMode && 0 < t <= left && t <= inp.n && t <= win.Avail()
      modifies this`left, this`a, inp, win`write, win`hist, win.data
      ensures Base() && inp.k == 0 && inp.have == 0 && left == old(left) - t
      ensures inp.p + inp.n == old(inp.p + inp.n) && inp.Pos() > old(inp.Pos())
      ensures a == if left > 0 then Stream(Stored(left), last, inp.Pos(), win.hist)
              else AfterBlock(last, inp.Pos(), win.hist)
    {
      hide StreamClean, Leads, Affords, HeaderShort, TreesOK, Holds, Low, Pow2, Shr, Bits;
      var i := 0;
      while i < t
        invariant 0 <= i <= t && Base() && inp.k == 0 && inp.have == 0
        invariant left == old(left) - i && t - i <= inp.n && t - i <= win.Avail()
        invariant inp.p + inp.n == old(inp.p + inp.n) && inp.Pos() == old(inp.Pos()) + 8 * i
        invariant a == if left > 0 then Stream(Stored(left), last, inp.Pos(), win.hist)
                  else AfterBlock(last, inp.Pos(), win.hist)
      {
        var c := inp.TakeByte();
        win.OutByte(c);
        Advance();
        left := left - 1;
        i := i + 1;
      }
    }

    /** The trees of the dynamic block that begins here do not fit. */
    ghost predicate NoMemory(r: int)
      reads this, inp
    {
      r == Z_MEM_ERROR && ShortAt(inp.input, memory, a)
    }

    /** The header of a dynamic block is bad. */
    method Reject()
      requires Base() && a.phase == Dynamic && ReadPreamble(inp.input, a.pos) == BadPreamble
               && !HeaderShort(inp.input, a.pos, memory) && a.hist == win.hist
      modifies this`mode, this`a
      ensures Valid() && mode == Bad
    {
      hide StreamClean, Leads, Affords, HeaderShort, TreesOK, Holds, ReadPreamble;
      Advance();
      mode := Bad;
    }

    /** TABLE: the sizes of the codes. */
    method StepTable(r0: int) returns (leave: bool, r: int)
      requires Valid() && mode == Table && r0 != Z_DATA_ERROR
      modifies this`mode, this`trees, this`a, inp
      ensures Valid() && inp.p + inp.n == old(inp.p + inp.n) && inp.Pos() >= old(inp.Pos())
      ensures trees == old(trees) || (fresh(trees) && fresh(trees.blens))
      ensures !leave ==> inp.Pos() > old(inp.Pos()) && mode == BTree && (r == r0 || r == Z_OK)
      ensures leave ==>
                (mode == Table && inp.n == 0 && inp.k < 32 && (r == r0 || r == Z_OK))
                || (mode == Bad && r == Z_DATA_ERROR)
    {
      hide StreamClean, Leads, Affords, HeaderShort, TreesOK, Holds, Low, Pow2, Shr, Bits, ReadPreamble, BitsShort,
           AllLengths, BitLengths, Accepted, StreamStep, BordersRead;
      var ok, progress := inp.NeedBits(14);
      r := if progress then Z_OK else r0;
      if !ok { return true, r; }
      inp.PeekIs(14);
      var t := inp.Peek(14);
      // more codes than there are symbols
      if t % 32 > 29 || t / 32 % 32 > 29 {
        BadHeader(inp.input, a.pos, memory);
        Reject();
        return true, Z_DATA_ERROR;
      }
      StartTrees(t);
      leave := false;
    }

    /** The sizes are acceptable: begins to read the lengths. */
    method StartTrees(t: nat)
      requires Base() && a == Stream(Dynamic, last, inp.Pos(), win.hist) && 14 <= inp.k <= 14 + BMAX
               && t == Low(14, inp.Rest()) && SizesOK(t)
      modifies this`mode, this`trees, inp`b, inp`k, inp`have
      ensures Valid() && mode == BTree && inp.Pos() > old(inp.Pos()) && fresh(trees) && fresh(trees.blens)
    {
      hide StreamClean, Leads, Affords, HeaderShort, TreesOK, Holds, Low, Pow2, Shr, Bits, ReadPreamble, BitsShort,
           AllLengths, BitLengths, Accepted, StreamStep, BordersRead, SizesOK;
      inp.DumpBits(14);
      trees := new TreeReader(inp, t, a.pos);
      mode := BTree;
    }

    /** BTREE: the code length code and its tree. */
    method StepBTree(r0: int) returns (leave: bool, r: int)
      requires Valid() && mode == BTree && r0 != Z_DATA_ERROR
      modifies this`mode, this`a, inp, Inner()
      ensures Valid() && inp.p + inp.n == old(inp.p + inp.n) && inp.Pos() >= old(inp.Pos())
      ensures !leave ==> mode == DTree && (r == r0 || r == Z_OK)
      ensures leave ==> (mode == BTree && inp.n == 0 && inp.k < 32 && (r == r0 || r == Z_OK))
                        || (mode == Bad && r == Z_DATA_ERROR) || (mode == BTree && NoMemory(r))
    {
      hide StreamClean, Leads, Affords, HeaderShort, TreesOK, Holds, Low, Pow2, Shr, Bits, BordersRead, BitsTable,
           LeadsOn, Accepted;
      var ok;
      ok, r := trees.ReadBitLengths(r0);
      leave := !ok;
      if ok {
        var rc := BuildBTree();
        if rc != Z_OK { leave, r := true, rc; }
      }
    }

    /** All bit lengths are there: builds their tree. */
    method BuildBTree() returns (rc: int)
      requires Valid() && mode == BTree && trees.index == 19
      modifies this`mode, this`a, trees`index, trees`bb, trees`tb
      ensures Valid() && if rc == Z_OK then mode == DTree
                         else if rc == Z_DATA_ERROR then mode == Bad else NoMemory(rc) && mode == BTree
    {
      hide StreamClean, Leads, Affords, HeaderShort, TreesOK, Holds, Low, Pow2, Shr, Bits, BordersRead, BitsTable,
           LeadsOn, Accepted, BitsShort, StreamStep, ReadPreamble, AllLengths, BitLengths;
      rc := trees.BuildBits(memory, junk);
      if rc == Z_OK {
        mode := DTree;
      } else if rc == Z_DATA_ERROR {
        BadHeader(inp.input, a.pos, memory);
        Reject();
      } else {
        ShortOfBits(inp.input, a.pos, memory);
      }
    }

    /** DTREE: the code lengths and the two trees. */
    method StepDTree(r0: int) returns (leave: bool, r: int)
      requires Valid() && mode == DTree && r0 != Z_DATA_ERROR
      modifies this`mode, this`dec, this`a, inp, Inner()
      ensures Valid() && inp.p + inp.n == old(inp.p + inp.n) && inp.Pos() >= old(inp.Pos())
      ensures dec == old(dec) || fresh(dec)
      ensures !leave ==> mode == CodesMode && (r == r0 || r == Z_OK)
      ensures leave ==> (mode == DTree && inp.n == 0 && inp.k < 32 && (r == r0 || r == Z_OK))
                        || (mode == Bad && r == Z_DATA_ERROR) || (mode == DTree && NoMemory(r))
    {
      hide StreamClean, Leads, Affords, HeaderShort, TreesOK, Holds, Low, Pow2, Shr, Bits, BordersRead, BitsTable,
           LeadsOn, Accepted, LensOK, BitsShort, StreamStep, ReadPreamble, AllLengths, BitLengths, HeaderStep;
      CleanHere(inp.input, origin, a);
      var ok;
      ok, r := trees.ReadCodeLengths(r0);
      if !ok {
        if r == Z_DATA_ERROR {
          BadHeader(inp.input, a.pos, memory);
          Reject();
        }
        return true, r;
      }
      var rc := BuildDTree();
      leave := rc != Z_OK;
      if leave { r := rc; }
    }

    /** All code lengths are there: builds the trees of the block. */
    method BuildDTree() returns (rc: int)
      requires Valid() && mode == DTree && trees.index == TotalCodes(trees.table) && inp.k <= BMAX
      modifies this`mode, this`dec, this`a
      ensures Valid() && (dec == old(dec) || fresh(dec))
      ensures if rc == Z_OK then mode == CodesMode
              else if rc == Z_DATA_ERROR then mode == Bad else NoMemory(rc) && mode == DTree
    {
      hide StreamClean, Leads, Affords, HeaderShort, TreesOK, Holds, Low, Pow2, Shr, Bits, BordersRead, BitsTable,
           LeadsOn, Accepted, LensOK, BitsShort, StreamStep, ReadPreamble;
      var tr: Trees;
      ghost var codes: Codes;
      rc, tr, codes := trees.BuildTrees(memory, junk);
      if rc == Z_OK {
        StartCodes(tr, codes);
      } else if rc == Z_DATA_ERROR {
        Reject();
      }
    }

    /** The trees of the block are there. */
    method StartCodes(tr: Trees, ghost codes: Codes)
      requires Base() && inp.k <= BMAX && TreesOK(tr, codes) && a.phase == Dynamic && a.last == last
               && a.hist == win.hist
      requires ReadPreamble(inp.input, a.pos) == Preamble(codes, inp.Pos()) && !HeaderShort(inp.input, a.pos, memory)
      modifies this`mode, this`dec, this`a
      ensures Valid() && mode == CodesMode && fresh(dec)
    {
      hide StreamClean, Leads, Affords, HeaderShort, TreesOK, Holds, Low, Pow2, Shr, Bits, Clean, ModeOK, Reaches,
           ReadPreamble;
      Advance();
      BlockClean(inp.input, origin, a);
      dec := new Decoder(tr, codes, inp, win);
      mode := CodesMode;
    }

    /** CODES: decodes symbols as far as possible. */
    method StepCodes(r0: int) returns (leave: bool, r: int)
      requires Valid() && mode == CodesMode && (r0 == Z_OK || r0 == Z_BUF_ERROR)
      modifies this`mode, this`dec, this`a, inp, win, win.data, Inner()
      ensures Valid() && inp.p + inp.n == old(inp.p + inp.n) && inp.Pos() >= old(inp.Pos())
      ensures |win.out| + win.availOut == old(|win.out| + win.availOut) && (dec == old(dec) || dec == null)
      ensures !leave ==> r == Z_OK && (mode == TypeBits || mode == Dry)
      ensures leave ==> mode == CodesMode
                        && if r == Z_DATA_ERROR
                           then Affords(inp.input, memory, origin, Stream(Broken, last, dec.at.pos, dec.at.hist))
                                && dec.mode.BadMode?
                           else !dec.mode.BadMode? && (r == Z_OK || r == Z_BUF_ERROR) && Stalled()
    {
      hide StreamClean, Leads, Affords, HeaderShort, TreesOK, Holds, Low, Pow2, Shr, Bits, ModeOK, Clean, Reaches,
           LensOK, BordersRead, BitsTable, LeadsOn, Accepted;
      r := dec.InflateCodes(r0);
      if r != Z_STREAM_END {
        if r == Z_DATA_ERROR { BlockFails(); }
        return true, r;
      }
      r := Z_OK;
      EndCodes();
      leave := false;
    }

    /** The block has ended: on to the next one or to the end of the stream. */
    method EndCodes()
      requires Base() && CodesOK() && (dec.mode.Wash? || dec.mode.End?) && inp.k <= BMAX
      modifies this`mode, this`dec, this`a, inp`p, inp`n, inp`k
      ensures Valid() && inp.p + inp.n == old(inp.p + inp.n) && inp.Pos() == old(inp.Pos())
      ensures dec == null && (mode == TypeBits || mode == Dry)
    {
      hide StreamClean, Leads, Affords, HeaderShort, TreesOK, Holds, Low, Pow2, Shr, Bits, ModeOK, Clean, Reaches,
           LensOK, BordersRead, BitsTable, LeadsOn, Accepted;
      BlockEnds();
      dec := null;
      if !last {
        mode := TypeBits;
        return;
      }
      // the byte that the stream did not need goes back
      if inp.k > 7 { inp.ReturnByte(); }
      mode := Dry;
    }

    /** The end of a compressed block is a step of the stream. */
    ghost method BlockEnds()
      requires Base() && CodesOK() && (dec.mode.Wash? || dec.mode.End?)
      modifies this`a
      ensures Base() && a == AfterBlock(last, inp.Pos(), win.hist)
    {
      hide StreamClean, Leads, Affords, HeaderShort, TreesOK, Holds, Low, Pow2, Shr, Bits, Clean, Reaches, ReadSymbol,
           Canon;
      ReachesLeads(inp.input, dec.codes, last, dec.begin, dec.at);
      ReachesAffords(inp.input, memory, dec.codes, last, dec.begin, dec.at);
      var t := Stream(Coded(dec.codes), last, dec.at.pos, dec.at.hist);
      LeadsTrans(inp.input, origin, a, t);
      AffordsTrans(inp.input, memory, origin, a, t);
      a := t;
      Advance();
    }

    lemma BlockFails()
      requires Base() && CodesOK() && dec.mode.BadMode?
      ensures Affords(inp.input, memory, origin, Stream(Broken, last, dec.at.pos, dec.at.hist))
    {
      hide StreamClean, Leads, Affords, HeaderShort, TreesOK, Holds, Low, Pow2, Shr, Bits, Clean, Reaches, ReadSymbol,
           Canon;
      ReachesAffords(inp.input, memory, dec.codes, last, dec.begin, dec.at);
      var t := Stream(Coded(dec.codes), last, dec.at.pos, dec.at.hist);
      AffordsTrans(inp.input, memory, origin, a, t);
      AffordsStep(inp.input, memory, origin, t);
    }

    /** DRY: delivers what is pending. */
    method StepDry(r0: int) returns (leave: bool, r: int)
      requires Valid() && mode == Dry
      modifies this`mode, win
      ensures Valid() && inp.Pos() == old(inp.Pos()) && (r == r0 || r == Z_OK)
      ensures |win.out| + win.availOut == old(|win.out| + win.availOut)
      ensures !leave ==> mode == Done
      ensures leave ==> mode == Dry && Stalled()
    {
      hide StreamClean, Leads, Affords, HeaderShort, TreesOK, Holds, Low, Pow2, Shr, Bits;
      r := win.Flush(r0);
      if win.read != win.write { return true, r; }
      mode := Done;
      leave := false;
    }

    function Rank(): nat
      reads this
    {
      match mode
      case BTree => 5
      case DTree => 4
      case CodesMode => 3
      case TypeBits => 2
      case Dry => 1
      case _ => 0
    }

    /** The stream has been found to be broken. */
    ghost predicate Failed()
      reads this, dec
    {
      mode == Bad || (mode == CodesMode && dec != null && dec.mode.BadMode?)
    }

    /** What a return code says about the stream. */
    ghost predicate Result(r: int)
      reads this, inp, win, dec
    {
      (r == Z_STREAM_END <==> mode == Done) && (r == Z_DATA_ERROR <==> Failed())
      && (r == Z_DATA_ERROR ==> exists t :: Affords(inp.input, memory, origin, t) && t.phase == Broken)
      && (r == Z_STREAM_END || r == Z_DATA_ERROR || NoMemory(r)
          || ((r == Z_OK || r == Z_BUF_ERROR) && Stalled()))
    }

    method Turn(r0: int) returns (leave: bool, r: int)
      requires Valid() && (r0 == Z_OK || r0 == Z_BUF_ERROR)
      modifies this`mode, this`last, this`left, this`trees, this`dec, this`a, inp, win, win.data, Inner()
      ensures Valid() && inp.p + inp.n == old(inp.p + inp.n)
      ensures |win.out| + win.availOut == old(|win.out| + win.availOut)
      ensures fresh(Inner() - old(Inner()))
      ensures !leave ==> (r == Z_OK || r == Z_BUF_ERROR)
                         && (inp.Pos() > old(inp.Pos()) || (inp.Pos() == old(inp.Pos()) && Rank() < old(Rank())))
      ensures leave ==> Result(r)
    {
      hide StreamClean, Leads, Affords, HeaderShort, TreesOK, Holds, Low, Pow2, Shr, Bits, ModeOK, Clean, Reaches,
           LensOK, BordersRead, BitsTable, LeadsOn, Accepted, BitsShort, ShortAt, StreamStep, HeaderStep, StoredStep,
           Step, ReadPreamble, SizesOK, AllLengths, BitLengths;
      match mode {
        case TypeBits => leave, r := TurnHeader(r0);
        case Lens => leave, r := TurnHeader(r0);
        case StoredMode => leave, r := StepStored(r0);
        case Table => leave, r := TurnDynamic(r0);
        case BTree => leave, r := TurnDynamic(r0);
        case DTree => leave, r := TurnDynamic(r0);
        case CodesMode => leave, r := StepCodes(r0);
        case Dry => leave, r := StepDry(r0);
        case Done => leave, r := true, Z_STREAM_END;
        case Bad => leave, r := true, Z_DATA_ERROR;
      }
    }

    /** The modes of a block's header that every block has. */
    method TurnHeader(r0: int) returns (leave: bool, r: int)
      requires Valid() && (r0 == Z_OK || r0 == Z_BUF_ERROR) && (mode == TypeBits || mode == Lens)
      modifies this`mode, this`last, this`left, this`dec, this`a, inp
      ensures Valid() && inp.p + inp.n == old(inp.p + inp.n)
      ensures fresh(Inner() - old(Inner()))
      ensures !leave ==> (r == Z_OK || r == Z_BUF_ERROR)
                         && (inp.Pos() > old(inp.Pos()) || (inp.Pos() == old(inp.Pos()) && Rank() < old(Rank())))
      ensures leave ==> Result(r)
    {
      hide StreamClean, Leads, Affords, HeaderShort, TreesOK, Holds, Low, Pow2, Shr, Bits, ModeOK, Clean, Reaches,
           LensOK, BordersRead, BitsTable, LeadsOn, Accepted, BitsShort, ShortAt, StreamStep, HeaderStep, StoredStep,
           Step, ReadPreamble, SizesOK, AllLengths, BitLengths;
      if mode == TypeBits {
        leave, r := StepType(r0);
      } else {
        leave, r := StepLens(r0);
      }
    }

    /** The modes of a dynamic block's header. */
    method TurnDynamic(r0: int) returns (leave: bool, r: int)
      requires Valid() && (r0 == Z_OK || r0 == Z_BUF_ERROR) && (mode == Table || mode == BTree || mode == DTree)
      modifies this`mode, this`trees, this`dec, this`a, inp, Inner()
      ensures Valid() && inp.p + inp.n == old(inp.p + inp.n)
      ensures fresh(Inner() - old(Inner()))
      ensures !leave ==> (r == Z_OK || r == Z_BUF_ERROR)
                         && (inp.Pos() > old(inp.Pos()) || (inp.Pos() == old(inp.Pos()) && Rank() < old(Rank())))
      ensures leave ==> Result(r)
    {
      hide StreamClean, Leads, Affords, HeaderShort, TreesOK, Holds, Low, Pow2, Shr, Bits, ModeOK, Clean, Reaches,
           LensOK, BordersRead, BitsTable, LeadsOn, Accepted, BitsShort, ShortAt, StreamStep, HeaderStep, StoredStep,
           Step, ReadPreamble, SizesOK, AllLengths, BitLengths;
      if mode == Table {
        leave, r := StepTable(r0);
      } else if mode == BTree {
        leave, r := StepBTree(r0);
      } else {
        leave, r := StepDTree(r0);
      }
    }

    /** inflate_blocks: everything delivered and still pending is what the blocks
        read so far decode to; the end is reported exactly when the last block
        has been decoded and delivered, with the input pointer on the first
        byte after the stream. */
    method InflateBlocks(r0: int) returns (r: int)
      requires Valid() && (r0 == Z_OK || r0 == Z_BUF_ERROR)
      modifies this`mode, this`last, this`left, this`trees, this`dec, this`a, inp, win, win.data, Inner()
      ensures Valid() && Result(r) && inp.p + inp.n == old(inp.p + inp.n)
      ensures |win.out| + win.availOut == old(|win.out| + win.availOut)
      ensures fresh(Inner() - old(Inner()))
      ensures r == Z_STREAM_END ==>
                a.phase == Finished && WSIZE <= |a.hist| && win.out == a.hist[WSIZE..] && 8 * inp.p == Aligned(a.pos)
    {
      hide StreamClean, Leads, Affords, HeaderShort, TreesOK, Holds, Low, Pow2, Shr, Bits, ModeOK, Clean, Reaches;
      r := r0;
      var leave := false;
      while !leave
        invariant Valid() && inp.p + inp.n == old(inp.p + inp.n)
        invariant |win.out| + win.availOut == old(|win.out| + win.availOut)
        invariant fresh(Inner() - old(Inner()))
        invariant if leave then Result(r) else r == Z_OK || r == Z_BUF_ERROR
        decreases !leave, 8 * |inp.input| - inp.Pos(), Rank()
      {
        leave, r := Turn(r);
      }
      r := FinalFlush(r);
    }

    method FinalFlush(r0: int) returns (r: int)
      requires Valid() && Result(r0)
      modifies win
      ensures Valid() && Result(r)
      ensures |win.out| + win.availOut == old(|win.out| + win.availOut)
      ensures r == Z_STREAM_END ==>
                a.phase == Finished && WSIZE <= |a.hist| && win.out == a.hist[WSIZE..] && 8 * inp.p == Aligned(a.pos)
    {
      hide StreamClean, Leads, Affords, HeaderShort, TreesOK, Holds, Low, Pow2, Shr, Bits, ModeOK, Clean, Reaches,
           StreamStep;
      r := win.Flush(r0);
    }

    lemma TypeRange(t: nat, b: nat)
      requires t == Low(3, b)
      ensures t < 8
    {
      assert Pow2(3) == 8;
    }
  }

  /** After the type bits of a stored block, at the byte boundary. */
  ghost predicate LensOK(input: seq<Byte>, a: Stream, last: bool, pos: nat, hist: seq<Byte>) {
    var t := Low(3, Bits(input, a.pos));
    a.phase == Header && t / 2 == 0 && last == (t % 2 == 1) && pos == Aligned(a.pos + 3) && a.hist == hist
  }
}
