// inflate_codes and inflate_fast: two decoders of the same block.
module InflateCodes {
  import opened ReturnCodes
  import opened Words
  import opened Canonical
  import opened HuffmanTables
  import opened BitStream
  import opened BitInput
  import opened SlidingWindow
  import opened InflateSpec
  import opened CodesState

  /** The mode that the result of inflate_fast stands for. */
  function AfterFast(r: int): Mode {
    if r == Z_OK then Start else if r == Z_STREAM_END then Wash else BadMode
  }

  /** How often `do ... while (--c)` turns for an unsigned 32-bit `c`. */
  function LoopTurns(c: nat): nat {
    if c == 0 then 0x1_0000_0000 else c
  }

  /** How many bytes the fast decoder copies for a count `c`: two at once and the
      others in a loop when the source is before the destination, all of them in
      a loop when it lies at the end of the window. */
  function FastCopied(c: nat, before: bool): nat {
    if before then 2 + LoopTurns((c + 0x1_0000_0000 - 2) % 0x1_0000_0000) else LoopTurns(c)
  }

  /** The copy is as long as the count for counts of three or more, the lengths
      that are not reserved; for the count 0 of a reserved one it runs on. */
  lemma CopiesCount(c: nat)
    requires c < 0x1_0000_0000
    ensures FastCopied(c, true) == c <==> c >= 3
    ensures FastCopied(c, false) == c <==> c >= 1
    ensures c == 0 ==> FastCopied(c, true) == FastCopied(c, false) == 0x1_0000_0000
  {
  }

  class Decoder {
    const tr: Trees
    ghost const codes: Codes
    const inp: BitReader
    const win: Window
    var mode: Mode
    var len: nat
    ghost const begin: State   // the state at the start of the block
    ghost var at: State        // the state before the current symbol

    ghost predicate Sound()
      reads this, inp, win, win.data
    {
      inp.Valid() && win.Valid() && TreesOK(tr, codes)
      && Clean(codes, inp.input, begin) && Reaches(codes, inp.input, begin, Going(at))
    }

    ghost predicate Valid()
      reads this, inp, win, win.data
    {
      Sound() && ModeOK(tr, codes, inp.input, at, mode, len, inp.Pos(), win.hist) && inp.k <= BMAX
    }

    /** inflate_codes_new */
    constructor (tr: Trees, ghost codes: Codes, inp: BitReader, win: Window)
      requires inp.Valid() && win.Valid() && TreesOK(tr, codes) && inp.k <= BMAX
      requires Clean(codes, inp.input, State(inp.Pos(), win.hist))
      ensures Valid() && mode == Start && this.inp == inp && this.win == win && this.codes == codes
      ensures at == begin == State(inp.Pos(), win.hist)
    {
      this.tr, this.codes, this.inp, this.win := tr, codes, inp, win;
      mode, len := Start, 0;
      begin, at := State(inp.Pos(), win.hist), State(inp.Pos(), win.hist);
      ReachesStart(codes, inp.input, State(inp.Pos(), win.hist));
    }

    // ------------------------------------------------------- inflate_fast

    /** Follows the tables to the entry of the next code; the bit buffer holds
        enough for any code. */
    method FastLookup(tables: seq<seq<Huft>>, need0: nat, ghost al: Alphabet, ghost lens: seq<nat>) returns (e: Huft)
      requires inp.Valid() && TreeOK(tables, need0, al, lens) && inp.k >= BMAX
      modifies inp`b, inp`k, inp`have
      ensures inp.Valid() && old(inp.Pos()) < inp.Pos()
      ensures Walk(tables, 0, need0, old(inp.Rest())) == Found(e, inp.Pos() - old(inp.Pos()))
      ensures inp.Pos() <= old(inp.Pos()) + BMAX && inp.k == old(inp.k) - (inp.Pos() - old(inp.Pos()))
      ensures !IsLink(e)
    {
      hide Pow2, Low, Shr, Walk, Agrees, Bits;
      ghost var str, pos0 := inp.Rest(), inp.Pos();
      var t: nat, need: nat := 0, need0;
      assert Continues(tables, need0, str, 0, 0, need0) by { WalkBegins(tables, need0, al, lens, str); }
      inp.PeekIs(need0);
      e := tables[0][inp.Peek(need0)];
      ghost var w: nat := 0;
      FastLookupStep(tables, need0, al, lens, str, pos0, w, t, need);
      while IsLink(e)
        invariant inp.Valid() && inp.Pos() == pos0 + w && inp.k == old(inp.k) - w
        invariant Continues(tables, need0, str, w, t, need) && need <= inp.k && t < |tables|
        invariant Low(need, inp.Rest()) < |tables[t]| && e == tables[t][Low(need, inp.Rest())]
        decreases |tables| - t
      {
        FastLookupStep(tables, need0, al, lens, str, pos0, w, t, need);
        inp.DumpBits(e.bits);
        t, need, w := e.more, e.exop, w + e.bits;
        FastLookupStep(tables, need0, al, lens, str, pos0, w, t, need);
        inp.PeekIs(need);
        e := tables[t][inp.Peek(need)];
      }
      FastLookupStep(tables, need0, al, lens, str, pos0, w, t, need);
      inp.DumpBits(e.bits);
    }

    /** Decodes one symbol; ten input bytes and room for 258 are there. */
    method FastSymbol() returns (r: int)
      requires Sound() && ModeOK(tr, codes, inp.input, at, Start, len, inp.Pos(), win.hist) && inp.n >= 10
               && win.Avail() >= 258
      modifies this`at, inp, win`write, win`hist, win.data
      ensures Sound() && inp.Pos() > old(inp.Pos()) && inp.p + inp.n == old(inp.p + inp.n)
      ensures Reaches(codes, inp.input, old(at), Going(at))
      ensures r == Z_OK || r == Z_STREAM_END || r == Z_DATA_ERROR
      ensures ModeOK(tr, codes, inp.input, at, AfterFast(r), len, inp.Pos(), win.hist)
    {
      hide Clean, CleanAt, Reaches, TreesOK, ModeOK, Pow2, Low, Shr, Walk, Holds, ReadSymbol, Canon;
      FastReady();
      ReachesStart(codes, inp.input, at);
      inp.GrabBits(20);
      var e := FastLookup(tr.ltree, tr.lbits, LITLEN, codes.lit);
      CleanNow();
      LenDecides(tr, codes, inp.input, at, e, inp.Pos() - at.pos, len);
      if e.exop == 0 {
        win.OutByte(e.more);
        SymbolDone(tr, codes, inp.input, at, Lit(e.more), len, inp.Pos(), old(win.hist));
        Advance(State(inp.Pos(), win.hist));
        return Z_OK;
      }
      if HasExtra(e.exop) {
        r := FastMatch(e);
        return;
      }
      if IsEnd(e.exop) {
        return Z_STREAM_END;
      }
      r := Z_DATA_ERROR;
    }

    /** inflate_fast: decodes whole symbols while ten input bytes and room for
        258 are left, and ends where some number of symbol steps ends. */
    method InflateFast() returns (r: int)
      requires Valid() && mode == Start && inp.n >= 10 && win.Avail() >= 258
      modifies this`at, inp, win`write, win`hist, win.data
      ensures Sound() && inp.Pos() >= old(inp.Pos()) && inp.p + inp.n == old(inp.p + inp.n) && inp.k < 8
      ensures Reaches(codes, inp.input, State(old(inp.Pos()), old(win.hist)), Going(at))
      ensures r == Z_OK ==> at == State(inp.Pos(), win.hist)
      ensures r == Z_OK || r == Z_STREAM_END || r == Z_DATA_ERROR
      ensures ModeOK(tr, codes, inp.input, at, AfterFast(r), len, inp.Pos(), win.hist)
    {
      hide Clean, Reaches, TreesOK, Pow2, Low, Shr, Walk, Holds, ReadSymbol, Canon;
      ghost var at0 := at;
      r := FastSymbol();
      while r == Z_OK && win.Avail() >= 258 && inp.n >= 10
        invariant Sound() && inp.Pos() >= old(inp.Pos()) && inp.p + inp.n == old(inp.p + inp.n)
        invariant Reaches(codes, inp.input, at0, Going(at))
        invariant r == Z_OK || r == Z_STREAM_END || r == Z_DATA_ERROR
        invariant ModeOK(tr, codes, inp.input, at, AfterFast(r), len, inp.Pos(), win.hist)
        decreases 8 * |inp.input| - inp.Pos()
      {
        ghost var at1 := at;
        r := FastSymbol();
        ReachesTrans(codes, inp.input, at0, at1, Going(at));
      }
      inp.Ungrab();
    }

    /** `*q++ = *r++` */
    method CopyByte(r: nat, d: nat, ghost h0: seq<Byte>, ghost done: nat)
      requires win.Valid() && win.Avail() > 0 && 1 <= d <= WSIZE && r == win.Source(d)
      requires win.hist == CopyBack(h0, done, d)
      modifies win`write, win`hist, win.data
      ensures win.Valid() && win.hist == CopyBack(h0, done + 1, d)
      ensures win.write == old(win.write) + 1 && win.Avail() == old(win.Avail()) - 1
      ensures win.Pending() == old(win.Pending()) + 1
    {
      win.SourceIs(d);
      win.OutByte(win.data[r]);
    }

    /** Copies `c` bytes from `r` on, the source not crossing the window's end. */
    method CopyRun(c0: nat, r0: nat, d: nat, ghost h0: seq<Byte>, ghost done0: nat)
      requires win.Valid() && c0 <= win.Avail() && 1 <= d <= WSIZE
      requires c0 > 0 ==> r0 == win.Source(d)
      requires win.write < d ==> r0 + c0 <= WSIZE && win.write + c0 <= d
      requires win.hist == CopyBack(h0, done0, d)
      modifies win`write, win`hist, win.data
      ensures win.Valid() && win.hist == CopyBack(h0, done0 + c0, d)
      ensures win.write == old(win.write) + c0 && win.Avail() == old(win.Avail()) - c0
      ensures win.Pending() == old(win.Pending()) + c0
    {
      hide Holds, CopyBack;
      var c, r := c0, r0;
      ghost var done := done0;
      while c > 0
        invariant 0 <= c <= c0 && r == r0 + c0 - c && done == done0 + c0 - c && win.Valid()
        invariant c > 0 ==> r == win.Source(d)
        invariant win.hist == CopyBack(h0, done, d)
        invariant win.write == old(win.write) + c0 - c
        invariant win.Avail() == old(win.Avail()) - c0 + c && win.Pending() == old(win.Pending()) + c0 - c
      {
        CopyByte(r, d, h0, done);
        r, c, done := r + 1, c - 1, done + 1;
      }
    }

    /** Copies a match without looking for room: `count` bytes fit. */
    method FastCopy(count: nat, d: nat)
      requires win.Valid() && 3 <= count <= win.Avail() && 1 <= d <= WSIZE
      modifies win`write, win`hist, win.data
      ensures win.Valid() && win.hist == CopyBack(old(win.hist), count, d)
      ensures win.Avail() == old(win.Avail()) - count && win.Pending() == old(win.Pending()) + count
    {
      hide Holds, CopyBack;
      ghost var h0 := win.hist;
      assert win.hist == CopyBack(h0, 0, d) by { NothingCopied(h0, d); }
      if win.write >= d {
        // the source begins in the window before the destination; a match has three bytes
        var r := win.write - d;
        CopyByte(r, d, h0, 0);
        CopyByte(r + 1, d, h0, 1);
        CopyRun(count - 2, r + 2, d, h0, 2);
      } else {
        // the source begins at the end of the window
        var e := d - win.write;
        var c, r := count, WSIZE - e;
        if c > e {
          // and goes on at its beginning
          c := c - e;
          CopyRun(e, r, d, h0, 0);
          CopyRun(c, 0, d, h0, e);
        } else {
          CopyRun(c, r, d, h0, 0);
        }
      }
    }

    lemma NothingCopied(h: seq<Byte>, d: nat)
      ensures CopyBack(h, 0, d) == h
    {
    }

    lemma FastReady()
      requires Sound() && ModeOK(tr, codes, inp.input, at, Start, len, inp.Pos(), win.hist)
      ensures at == State(inp.Pos(), win.hist) && |at.hist| >= WSIZE
      ensures TreeOK(tr.ltree, tr.lbits, LITLEN, codes.lit) && CleanAt(codes, inp.input, at)
    {
      hide TreeOK, TreesOK, CleanAt, Clean, Reaches;
      CleanNow();
      CleanTrees(tr, codes, inp.input, at);
    }

    /** The current symbol is a definite one. */
    lemma CleanNow()
      requires Sound()
      ensures CleanAt(codes, inp.input, at)
    {
      hide TreesOK, CleanAt, Clean, Reaches;
      CleanLater(codes, inp.input, begin, at);
    }

    /** The state after the current symbol becomes the one before the next. */
    ghost method Advance(s: State)
      requires Sound() && Step(codes, inp.input, at) == Going(s)
      modifies this`at
      ensures Sound() && at == s && Reaches(codes, inp.input, old(at), Going(at))
    {
      ReachesStep(codes, inp.input, begin, at);
      ReachesStart(codes, inp.input, at);
      ReachesStep(codes, inp.input, at, at);
      at := s;
    }

    /** The length code has been read: the rest of the match. */
    method FastMatch(e: Huft) returns (r: int)
      requires Sound() && HasExtra(e.exop) && inp.k >= 5 && inp.k + 8 * inp.n >= 65 && win.Avail() >= 258
      requires ModeOK(tr, codes, inp.input, at, LenExt(e.exop % 16), e.more, inp.Pos(), win.hist)
      modifies this`at, inp, win`write, win`hist, win.data
      ensures Sound() && inp.Pos() >= old(inp.Pos()) && inp.p + inp.n == old(inp.p + inp.n)
      ensures Reaches(codes, inp.input, old(at), Going(at))
      ensures r == Z_OK || r == Z_DATA_ERROR
      ensures ModeOK(tr, codes, inp.input, at, AfterFast(r), len, inp.Pos(), win.hist)
    {
      hide Clean, CleanAt, Reaches, TreesOK, ModeOK, Pow2, Low, Shr, Walk, Holds, ReadSymbol, Canon;
      ReachesStart(codes, inp.input, at);
      var x := e.exop % 16;
      CleanNow();
      LenExtends(tr, codes, inp.input, at, x, e.more, inp.Pos(), win.hist);
      inp.PeekIs(x);
      var c := e.more + inp.Peek(x);
      inp.DumpBits(x);
      ghost var dpos := inp.Pos();
      DistReady(c);
      inp.GrabBits(15);
      var e' := FastLookup(tr.dtree, tr.dbits, DIST, codes.dst);
      CleanNow();
      DistDecides(tr, codes, inp.input, at, e', inp.Pos() - dpos, c);
      if HasExtra(e'.exop) {
        FastDistance(c, e');
        return Z_OK;
      }
      LenUnused(tr, codes, inp.input, at, BadMode, c, len, inp.Pos(), win.hist);
      r := Z_DATA_ERROR;
    }

    lemma DistReady(c: nat)
      requires Sound() && ModeOK(tr, codes, inp.input, at, Dist(0, tr.dbits), c, inp.Pos(), win.hist)
      ensures var lit := Canon(LITLEN, codes.lit, Bits(inp.input, at.pos));
              HasExtra(lit.entry.exop) && c == Extended(lit, Bits(inp.input, at.pos))
      ensures 3 <= c <= 258 && |at.hist| >= WSIZE && at.hist == win.hist
      ensures TreeOK(tr.dtree, tr.dbits, DIST, codes.dst)
    {
      hide TreeOK, Walk, Low, Pow2, Shr, Canon, ReadSymbol, TreesOK;
      CleanNow();
      CleanTrees(tr, codes, inp.input, at);
      LengthBounds(tr, codes, inp.input, at);
    }

    /** Distance code read: extra bits, then the copy. */
    method FastDistance(c: nat, e: Huft)
      requires Sound() && HasExtra(e.exop) && inp.k + 8 * inp.n >= 13 && 3 <= c <= 258 <= win.Avail()
      requires ModeOK(tr, codes, inp.input, at, DistExt(e.exop % 16, e.more), c, inp.Pos(), win.hist)
               && at.hist == win.hist
      modifies this`at, inp, win`write, win`hist, win.data
      ensures Sound() && inp.Pos() >= old(inp.Pos()) && inp.p + inp.n == old(inp.p + inp.n)
      ensures Reaches(codes, inp.input, old(at), Going(at))
      ensures ModeOK(tr, codes, inp.input, at, Start, len, inp.Pos(), win.hist)
    {
      hide Clean, CleanAt, Reaches, TreesOK, ModeOK, Pow2, Low, Shr, Walk, Holds, ReadSymbol, Canon;
      var x := e.exop % 16;
      DistExtends(tr, codes, inp.input, at, x, e.more, c, inp.Pos(), win.hist);
      inp.GrabBits(x);
      inp.PeekIs(x);
      var d := e.more + inp.Peek(x);
      inp.DumpBits(x);
      CopyAll(tr, codes, inp.input, at, d, c, inp.Pos(), CopyBack(at.hist, c, d));
      FastCopy(c, d);
      SymbolDone(tr, codes, inp.input, at, Copy(d), 0, inp.Pos(), win.hist);
      Advance(State(inp.Pos(), win.hist));
      LenUnused(tr, codes, inp.input, at, Start, 0, len, inp.Pos(), win.hist);
    }

    lemma WalkBegins(tables: seq<seq<Huft>>, need0: nat, al: Alphabet, lens: seq<nat>, str: nat)
      requires TreeOK(tables, need0, al, lens)
      ensures Continues(tables, need0, str, 0, 0, need0)
    {
      hide Walk, Lookahead, Agrees;
      assert Shr(0, str) == str;
    }

    lemma FastLookupStep(tables: seq<seq<Huft>>, need0: nat, al: Alphabet, lens: seq<nat>, str: nat, pos0: nat,
                         w: nat, t: nat, need: nat)
      requires inp.Valid() && TreeOK(tables, need0, al, lens) && str == Bits(inp.input, pos0)
      requires inp.Pos() == pos0 + w && inp.k + w >= BMAX && Continues(tables, need0, str, w, t, need)
      ensures need <= inp.k && t < |tables| && Low(need, inp.Rest()) < |tables[t]|
      ensures var e := tables[t][Low(need, inp.Rest())];
              0 < e.bits <= need && w + e.bits <= BMAX
              && if IsLink(e) then t < e.more && Continues(tables, need0, str, w + e.bits, e.more, e.exop)
                 else Walk(tables, 0, need0, str) == Found(e, w + e.bits)
    {
      hide Pow2, Low, Walk, Agrees;
      BitsSkip(inp.input, pos0, w);
      LookupSafe(tables, need0, al, lens, t, need, Low(need, inp.Rest()));
      LookupContinues(tables, need0, al, lens, str, w, t, need);
    }

    // ------------------------------------------------------ inflate_codes

    /** What can keep the decoder from going on: input or output space. */
    ghost predicate Stalled()
      reads this, inp, win
    {
      (inp.n == 0 && inp.k < BMAX) || (win.availOut == 0 && win.Pending() > 0)
    }

    /** Modes in the order in which they follow each other without input. */
    function Rank(): nat
      reads this
    {
      match mode
      case LenExt(_) => 8
      case Dist(_, _) => 7
      case DistExt(_, _) => 6
      case Copy(_) => 5
      case Lit(_) => 4
      case Start => 3
      case Len(_, _) => 2
      case Wash => 1
      case _ => 0
    }

    /** START: a new symbol, or as many as inflate_fast can decode. */
    method StepStart(r0: int) returns (r: int)
      requires Valid() && mode == Start
      modifies this`mode, this`at, inp, win`write, win`hist, win.data
      ensures Valid() && inp.Pos() >= old(inp.Pos()) && inp.p + inp.n == old(inp.p + inp.n)
      ensures (mode.Len? && (r == r0 || r == Z_OK)) || (mode.Wash? && r == Z_STREAM_END)
              || (mode.BadMode? && r == Z_DATA_ERROR)
      ensures |win.out| + win.availOut == old(|win.out| + win.availOut)
    {
      hide Clean, CleanAt, Reaches, Pow2, Low, Shr, Walk, Holds, ReadSymbol, Canon, TreesOK;
      r := r0;
      if win.Avail() >= 258 && inp.n >= 10 {
        r := InflateFast();
        if r != Z_OK {
          mode := if r == Z_STREAM_END then Wash else BadMode;
          return;
        }
      }
      CleanNow();
      LenStarts(tr, codes, inp.input, at, len);
      mode := Len(0, tr.lbits);
    }

    /** LEN: one lookup of the literal code. */
    method StepLen(r0: int) returns (leave: bool, r: int)
      requires Valid() && mode.Len?
      modifies this`mode, this`len, inp
      ensures Valid() && inp.Pos() >= old(inp.Pos()) && inp.p + inp.n == old(inp.p + inp.n)
      ensures !mode.End?
              && (leave && !mode.BadMode? ==> inp.n == 0 && inp.k < BMAX && !mode.Wash? && (r == r0 || r == Z_OK))
      ensures leave && mode.BadMode? ==> r == Z_DATA_ERROR
      ensures !leave ==> inp.Pos() > old(inp.Pos()) && (r == r0 || r == Z_OK)
    {
      hide Clean, CleanAt, Reaches, Pow2, Low, Shr, Walk, Holds, ReadSymbol, Canon, TreesOK, ModeOK;
      var t, j := mode.tree, mode.need;
      CleanNow();
      LenLooksUp(tr, codes, inp.input, at, t, j, len, inp.Pos(), win.hist);
      var ok, progress := inp.NeedBits(j);
      r := if progress then Z_OK else r0;
      if !ok { return true, r; }
      inp.PeekIs(j);
      var e := tr.ltree[t][inp.Peek(j)];
      inp.DumpBits(e.bits);
      mode := AfterLen(e);
      if HasExtra(e.exop) { len := e.more; }
      leave := mode.BadMode?;
      if leave { r := Z_DATA_ERROR; }
    }

    /** LENEXT: the extra bits of a length. */
    method StepLenExt(r0: int) returns (leave: bool, r: int)
      requires Valid() && mode.LenExt?
      modifies this`mode, this`len, inp
      ensures Valid() && inp.Pos() >= old(inp.Pos()) && inp.p + inp.n == old(inp.p + inp.n) && (r == r0 || r == Z_OK)
      ensures leave ==> inp.n == 0 && inp.k < BMAX && !mode.BadMode? && !mode.End?
      ensures !leave ==> inp.Pos() >= old(inp.Pos()) && mode.Dist?
    {
      hide Clean, CleanAt, Reaches, Pow2, Low, Shr, Walk, Holds, ReadSymbol, Canon, TreesOK, ModeOK;
      var j := mode.get;
      CleanNow();
      LenExtends(tr, codes, inp.input, at, j, len, inp.Pos(), win.hist);
      var ok, progress := inp.NeedBits(j);
      r := if progress then Z_OK else r0;
      if !ok { return true, r; }
      inp.PeekIs(j);
      len := len + inp.Peek(j);
      inp.DumpBits(j);
      mode := Dist(0, tr.dbits);
      leave := false;
    }

    /** DIST: one lookup of the distance code. */
    method StepDist(r0: int) returns (leave: bool, r: int)
      requires Valid() && mode.Dist?
      modifies this`mode, inp
      ensures Valid() && inp.Pos() >= old(inp.Pos()) && inp.p + inp.n == old(inp.p + inp.n)
      ensures !mode.End?
              && (leave && !mode.BadMode? ==> inp.n == 0 && inp.k < BMAX && !mode.Wash? && (r == r0 || r == Z_OK))
      ensures leave && mode.BadMode? ==> r == Z_DATA_ERROR
      ensures !leave ==> inp.Pos() > old(inp.Pos()) && (r == r0 || r == Z_OK)
    {
      hide Clean, CleanAt, Reaches, Pow2, Low, Shr, Walk, Holds, ReadSymbol, Canon, TreesOK, ModeOK;
      var t, j := mode.tree, mode.need;
      CleanNow();
      DistLooksUp(tr, codes, inp.input, at, t, j, len, inp.Pos(), win.hist);
      var ok, progress := inp.NeedBits(j);
      r := if progress then Z_OK else r0;
      if !ok { return true, r; }
      inp.PeekIs(j);
      var e := tr.dtree[t][inp.Peek(j)];
      inp.DumpBits(e.bits);
      mode := AfterDist(e);
      leave := mode.BadMode?;
      if leave { r := Z_DATA_ERROR; }
    }

    /** DISTEXT: the extra bits of a distance. */
    method StepDistExt(r0: int) returns (leave: bool, r: int)
      requires Valid() && mode.DistExt?
      modifies this`mode, inp
      ensures Valid() && inp.Pos() >= old(inp.Pos()) && inp.p + inp.n == old(inp.p + inp.n) && (r == r0 || r == Z_OK)
      ensures leave ==> inp.n == 0 && inp.k < BMAX && !mode.BadMode? && !mode.End?
      ensures !leave ==> inp.Pos() >= old(inp.Pos()) && mode.Copy?
    {
      hide Clean, CleanAt, Reaches, Pow2, Low, Shr, Walk, Holds, ReadSymbol, Canon, TreesOK, ModeOK;
      var j, base := mode.get, mode.base;
      DistExtends(tr, codes, inp.input, at, j, base, len, inp.Pos(), win.hist);
      var ok, progress := inp.NeedBits(j);
      r := if progress then Z_OK else r0;
      if !ok { return true, r; }
      inp.PeekIs(j);
      mode := Copy(base + inp.Peek(j));
      inp.DumpBits(j);
      leave := false;
    }

    /** COPY: the bytes of a match, as long as there is room. */
    method StepCopy(r0: int) returns (leave: bool, r: int)
      requires Valid() && mode.Copy?
      modifies this`mode, this`len, this`at, win, win.data
      ensures Valid() && (r == r0 || r == Z_OK) && inp.Pos() == old(inp.Pos())
      ensures leave ==> win.availOut == 0 && win.Pending() > 0 && !mode.BadMode? && !mode.End?
      ensures !leave ==> mode.Start?
      ensures |win.out| + win.availOut == old(|win.out| + win.availOut)
    {
      hide Clean, CleanAt, Reaches, Pow2, Low, Shr, Walk, Holds, ReadSymbol, Canon, TreesOK, ModeOK;
      r := r0;
      var d := mode.dist;
      CopyDistance(d);
      var f := win.Source(d);
      while len > 0
        invariant Valid() && mode == Copy(d) && (r == r0 || r == Z_OK)
        invariant inp.Pos() == old(inp.Pos()) && 1 <= d <= WSIZE
        invariant f == win.Source(d)
        invariant |win.out| + win.availOut == old(|win.out| + win.availOut)
        decreases len
      {
        var ok;
        ok, r := win.NeedOut(r);
        if !ok { return true, r; }
        f := CopyOne(d, f);
      }
      SymbolDone(tr, codes, inp.input, at, Copy(d), len, inp.Pos(), win.hist);
      Advance(State(inp.Pos(), win.hist));
      mode := Start;
      leave := false;
    }

    /** Copies a byte of the match, for which there is room. */
    method CopyOne(d: nat, f: nat) returns (f': nat)
      requires Valid() && mode == Copy(d) && len > 0 && win.Avail() > 0 && 1 <= d <= WSIZE && f == win.Source(d)
      modifies this`len, win`write, win`hist, win.data
      ensures Valid() && len == old(len) - 1 && f' == win.Source(d)
    {
      hide Clean, CleanAt, Reaches, Pow2, Low, Shr, Walk, Holds, ReadSymbol, Canon, TreesOK, ModeOK;
      CopyStep(tr, codes, inp.input, at, d, len, inp.Pos(), win.hist);
      win.SourceIs(d);
      win.OutByte(win.data[f]);
      f' := if f + 1 == WSIZE then 0 else f + 1;
      len := len - 1;
    }

    lemma CopyDistance(d: nat)
      requires Valid() && mode == Copy(d)
      ensures 1 <= d <= WSIZE
    {
      hide ReadSymbol, Canon;
    }

    /** LIT: one byte, once there is room. */
    method StepLit(r0: int) returns (leave: bool, r: int)
      requires Valid() && mode.Lit?
      modifies this`mode, this`at, win, win.data
      ensures Valid() && (r == r0 || r == Z_OK) && inp.Pos() == old(inp.Pos())
      ensures leave ==> win.availOut == 0 && win.Pending() > 0 && !mode.BadMode? && !mode.End?
      ensures !leave ==> mode.Start?
      ensures |win.out| + win.availOut == old(|win.out| + win.availOut)
    {
      hide Clean, CleanAt, Reaches, Pow2, Low, Shr, Walk, Holds, ReadSymbol, Canon, TreesOK, ModeOK;
      var ok;
      ok, r := win.NeedOut(r0);
      if !ok { return true, r; }
      SymbolDone(tr, codes, inp.input, at, mode, len, inp.Pos(), win.hist);
      win.OutByte(mode.lit);
      Advance(State(inp.Pos(), win.hist));
      mode := Start;
      leave := false;
    }

    /** WASH: delivers what is pending after the end of the block. */
    method StepWash(r0: int) returns (leave: bool, r: int)
      requires Valid() && mode == Wash
      modifies this`mode, win
      ensures Valid() && (r == r0 || r == Z_OK) && inp.Pos() == old(inp.Pos())
      ensures leave ==> mode == Wash && win.availOut == 0 && win.Pending() > 0
      ensures !leave ==> mode == End && win.Pending() == 0
      ensures |win.out| + win.availOut == old(|win.out| + win.availOut)
    {
      hide Clean, CleanAt, Reaches, Pow2, Low, Shr, Walk, Holds, ReadSymbol, Canon, TreesOK;
      r := win.Flush(r0);
      if win.read != win.write { return true, r; }
      mode := End;
      leave := false;
    }

    /** Return codes the loop can carry in each mode.  After inflate_fast has
        met the end of the block the code is already Z_STREAM_END in WASH, so
        that inflate_codes may report the end while output is still pending. */
    predicate Carried(r: int)
      reads this
    {
      r == Z_OK || r == Z_BUF_ERROR || (r == Z_STREAM_END && (mode.Wash? || mode.End?))
      || (r == Z_DATA_ERROR && mode.BadMode?)
    }

    /** One turn of the decoder's loop. */
    method Turn(r0: int) returns (leave: bool, r: int)
      requires Valid() && (mode.End? ==> win.Pending() == 0) && Carried(r0)
      modifies this`mode, this`len, this`at, inp, win, win.data
      ensures Valid() && (mode.End? ==> win.Pending() == 0) && inp.p + inp.n == old(inp.p + inp.n)
      ensures inp.Pos() >= old(inp.Pos())
      ensures |win.out| + win.availOut == old(|win.out| + win.availOut)
      ensures !leave ==> Carried(r)
                         && (inp.Pos() > old(inp.Pos()) || (inp.Pos() == old(inp.Pos()) && Rank() < old(Rank())))
      ensures leave ==> Result(r)
    {
      hide ModeOK, Holds, Clean, Reaches, TreesOK;
      match mode {
        case Start =>
          r := StepStart(r0);
          leave := false;
        case Len(_, _) => leave, r := StepLen(r0);
        case LenExt(_) => leave, r := StepLenExt(r0);
        case Dist(_, _) => leave, r := StepDist(r0);
        case DistExt(_, _) => leave, r := StepDistExt(r0);
        case Copy(_) => leave, r := StepCopy(r0);
        case Lit(_) => leave, r := StepLit(r0);
        case Wash => leave, r := StepWash(r0);
        case End => leave, r := true, Z_STREAM_END;
        case BadMode => leave, r := true, Z_DATA_ERROR;
      }
    }

    /** What a return code says about the decoder. */
    ghost predicate Result(r: int)
      reads this, inp, win
    {
      (r == Z_STREAM_END ==> mode.Wash? || mode.End?) && (mode.End? ==> r == Z_STREAM_END)
      && (r == Z_DATA_ERROR <==> mode.BadMode?)
      && (r == Z_STREAM_END || r == Z_DATA_ERROR || ((r == Z_OK || r == Z_BUF_ERROR) && Stalled()))
    }

    /** inflate_codes: runs until the block ends, an error, or lack of input or
        output space, and delivers what it can. */
    method InflateCodes(r0: int) returns (r: int)
      requires Valid() && (mode.End? ==> win.Pending() == 0) && (r0 == Z_OK || r0 == Z_BUF_ERROR)
      modifies this`mode, this`len, this`at, inp, win, win.data
      ensures Valid() && inp.p + inp.n == old(inp.p + inp.n) && inp.Pos() >= old(inp.Pos())
      ensures |win.out| + win.availOut == old(|win.out| + win.availOut)
      ensures Result(r) && (mode.End? ==> win.Pending() == 0)
    {
      hide ModeOK, Holds, Clean, Reaches, TreesOK;
      r := r0;
      var leave := false;
      while !leave
        invariant Valid() && (mode.End? ==> win.Pending() == 0) && inp.p + inp.n == old(inp.p + inp.n)
        invariant inp.Pos() >= old(inp.Pos())
        invariant |win.out| + win.availOut == old(|win.out| + win.availOut)
        invariant if leave then Result(r) else Carried(r)
        decreases !leave, 8 * |inp.input| - inp.Pos(), Rank()
      {
        leave, r := Turn(r);
      }
      r := win.Flush(r);
    }
  }
}
