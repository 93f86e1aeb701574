// Every stream that decodes to an end is decoded to it.
module InflateComplete {
  import opened ReturnCodes
  import opened Words
  import opened Canonical
  import opened HuffmanTables
  import opened BitStream
  import opened BitInput
  import opened SlidingWindow
  import opened InflateSpec
  import opened CodesState
  import opened InflateCodes
  import opened DynamicSpec
  import opened BlocksSpec
  import opened DynamicTrees
  import opened StreamMemory
  import opened InflateBlocks

  /** Bits a decoder may look at before it can tell what a symbol is; a gzip
      trailer of eight bytes covers them. */
  const SYMBOL_BITS: nat := 48

  /** Bits of a block's header that may be read before it can be told to be bad:
      the sizes, the lengths of the code length code, and 316 code lengths. */
  const HEADER_BITS: nat := 14 + 3 * 19 + 7 * 316

  // --------------------------------------------------------- stream progress

  predicate Absorbing(p: Phase) {
    p == Finished || p == Broken
  }

  lemma StepGrows(input: seq<Byte>, s: Stream)
    ensures StreamStep(input, s).pos >= s.pos && s.hist <= StreamStep(input, s).hist
    ensures Absorbing(s.phase) ==> StreamStep(input, s) == s
  {
    hide ReadSymbol, Low, Shr, Bits, ReadPreamble, LengthsMatch;
  }

  lemma {:induction false} RunGrows(input: seq<Byte>, s: Stream, m: nat, n: nat)
    requires m <= n
    ensures StreamRun(input, s, n).pos >= StreamRun(input, s, m).pos
    ensures StreamRun(input, s, m).hist <= StreamRun(input, s, n).hist
    ensures Absorbing(StreamRun(input, s, m).phase) ==> StreamRun(input, s, n) == StreamRun(input, s, m)
    decreases n - m
  {
    hide StreamStep;
    if m < n {
      RunGrows(input, s, m, n - 1);
      StepGrows(input, StreamRun(input, s, n - 1));
    }
  }

  /** What the stream comes to: its end, or the block or symbol at which it is
      broken. */
  ghost predicate ComesTo(input: seq<Byte>, s: Stream, f: Stream) {
    Leads(input, s, f) && Absorbing(f.phase)
  }

  /** The stream decodes to the end `f`. */
  ghost predicate EndsIn(input: seq<Byte>, s: Stream, f: Stream) {
    ComesTo(input, s, f) && f.phase == Finished
  }

  /** Every state on the way lies before what the stream comes to. */
  lemma OnTheWay(input: seq<Byte>, s: Stream, t: Stream, f: Stream)
    requires ComesTo(input, s, f) && Leads(input, s, t)
    ensures t.pos <= f.pos && t.hist <= f.hist
    ensures Absorbing(t.phase) ==> t == f
  {
    hide StreamStep;
    var m: nat :| StreamRun(input, s, m) == t;
    var n: nat :| StreamRun(input, s, n) == f;
    if m <= n { RunGrows(input, s, m, n); } else { RunGrows(input, s, n, m); }
  }

  /** A stream that has been afforded to the end is never short of memory. */
  lemma AffordedEnd(input: seq<Byte>, memory: nat, s: Stream, f: Stream)
    requires Affords(input, memory, s, f) && Absorbing(f.phase)
    ensures !Starved(input, memory, s)
  {
    hide StreamStep, HeaderShort;
    var n: nat :| StreamRun(input, s, n) == f && Untroubled(input, memory, s, n);
    forall m: nat ensures !ShortAt(input, memory, StreamRun(input, s, m)) {
      if m >= n { RunGrows(input, s, n, m); }
    }
  }

  /** A stream that has an end is starved only by less memory than is always
      enough, and at a dynamic block. */
  lemma StarvedHow(input: seq<Byte>, memory: nat, s: Stream, f: Stream)
    requires EndsIn(input, s, f) && Starved(input, memory, s)
    ensures memory < TREE_ENTRIES && exists t :: Leads(input, s, t) && t.phase == Dynamic
  {
    hide ReadPreamble, HeaderShort;
    var n: nat :| ShortAt(input, memory, StreamRun(input, s, n));
    var t := StreamRun(input, s, n);
    assert Leads(input, s, t);
    CleanHeader(input, s, t, f);
    if memory >= TREE_ENTRIES { GoodFits(input, t.pos, memory); }
  }

  // --------------------------------------------------- how far into a symbol

  /** No code is longer than 15 bits. */
  lemma CanonUsed(al: Alphabet, lens: seq<nat>, str: nat)
    requires ValidLengths(lens)
    ensures Canon(al, lens, str).used <= BMAX
  {
  }

  /** In the middle of a symbol neither the input nor the output has gone beyond
      what the whole symbol accounts for. */
  lemma ModeBehind(tr: Trees, c: Codes, input: seq<Byte>, at: State, mode: Mode, len: nat, pos: nat, hist: seq<Byte>)
    requires TreesOK(tr, c) && ModeOK(tr, c, input, at, mode, len, pos, hist) && !mode.BadMode?
    ensures pos <= at.pos + SYMBOL_BITS && hist <= Step(c, input, at).s.hist
  {
    hide Bits, TreesOK, Continues, Canon, ReadSymbol, CopyBack, HasExtra, Low, Shr;
    if mode.Len? || mode.LenExt? || mode.Dist? || mode.DistExt? {
      BeforeSymbol(tr, c, input, at, mode, len, pos, hist);
    } else if mode.Copy? {
      SymbolBits(tr, c, input, at.pos);
      var sym := ReadSymbol(c, Bits(input, at.pos));
      CopyPrefix(at.hist, sym.len - len, sym.len, sym.dist);
    } else {
      SymbolBits(tr, c, input, at.pos);
    }
  }

  /** No symbol takes more than 48 bits. */
  lemma SymbolBits(tr: Trees, c: Codes, input: seq<Byte>, pos: nat)
    requires TreesOK(tr, c)
    ensures var sym := ReadSymbol(c, Bits(input, pos)); !sym.BadCode? ==> sym.used <= SYMBOL_BITS
  {
    hide Pow2, Low, Shr, Walk, Bits, SymbolAt, EntryOf, TreesOK, Canon, HasExtra, IsEnd, ReadSymbol, ExtendedUsed;
    var lit := Canon(LITLEN, c.lit, Bits(input, pos));
    ReadAt(c, input, pos);
    LitUsed(tr, c, Bits(input, pos));
    DistUsed(tr, c, Bits(input, pos + ExtendedUsed(lit)));
  }

  /** While a symbol is being read. */
  lemma BeforeSymbol(tr: Trees, c: Codes, input: seq<Byte>, at: State, mode: Mode, len: nat, pos: nat, hist: seq<Byte>)
    requires TreesOK(tr, c) && ModeOK(tr, c, input, at, mode, len, pos, hist)
    requires mode.Len? || mode.LenExt? || mode.Dist? || mode.DistExt?
    ensures pos <= at.pos + SYMBOL_BITS && hist == at.hist <= Step(c, input, at).s.hist
  {
    hide Pow2, Low, Shr, Walk, Bits, SymbolAt, EntryOf, TreesOK, Lookahead, Canon, ReadSymbol, Continues, HasExtra;
    var str := Bits(input, at.pos);
    var dpos := at.pos + ExtendedUsed(Canon(LITLEN, c.lit, str));
    LitUsed(tr, c, str);
    DistUsed(tr, c, Bits(input, dpos));
    if mode.Len? { ContinuesWithin(tr.ltree, tr.lbits, str, pos - at.pos, mode.tree, mode.need); }
    if mode.Dist? { ContinuesWithin(tr.dtree, tr.dbits, Bits(input, dpos), pos - dpos, mode.tree, mode.need); }
  }

  lemma ContinuesWithin(tables: seq<seq<Huft>>, need0: nat, str: nat, w: nat, t: nat, need: nat)
    requires Continues(tables, need0, str, w, t, need)
    ensures w <= BMAX
  {
  }

  lemma {:induction false} CopyPrefix(h: seq<Byte>, a: nat, b: nat, dist: nat)
    requires a <= b
    ensures CopyBack(h, a, dist) <= CopyBack(h, b, dist)
    decreases b
  {
    if a < b { CopyPrefix(h, a, b - 1, dist); }
  }

  lemma LitUsed(tr: Trees, c: Codes, str: nat)
    requires TreesOK(tr, c)
    ensures var lit := Canon(LITLEN, c.lit, str);
            (HasExtra(lit.entry.exop) ==> ExtendedUsed(lit) <= 20 && lit.used <= BMAX)
            && (lit.entry.exop == 0 ==> lit.used <= BMAX)
            && (IsEnd(lit.entry.exop) && !HasExtra(lit.entry.exop) ==> lit.used <= BMAX)
  {
    hide Pow2, Low, Shr, Walk, SymbolAt, EntryOf, TreeOK;
    CanonUsed(LITLEN, c.lit, str);
    LitEntry(SymbolAt(c.lit, str));
    LitKinds(Canon(LITLEN, c.lit, str).entry.exop);
  }

  lemma DistUsed(tr: Trees, c: Codes, str: nat)
    requires TreesOK(tr, c)
    ensures var dst := Canon(DIST, c.dst, str);
            HasExtra(dst.entry.exop) ==> ExtendedUsed(dst) <= 28 && dst.used <= BMAX
  {
    hide Pow2, Low, Shr, Walk, SymbolAt, EntryOf, TreeOK;
    CanonUsed(DIST, c.dst, str);
    DistEntry(SymbolAt(c.dst, str));
  }

  // ------------------------------------------------------------- completeness

  /** How far beyond what the stream comes to the inflater may have read. */
  function Lag(f: Stream, coded: bool): nat {
    if coded then SYMBOL_BITS else if f.phase == Broken then HEADER_BITS else 0
  }

  /** Wherever the inflater stands, it has not gone beyond what the stream comes
      to by more than a symbol or a header, nor decoded too much. */
  lemma Behind(z: Inflater, f: Stream)
    requires z.Valid() && ComesTo(z.inp.input, z.origin, f)
    ensures z.win.hist <= f.hist
    ensures !z.Failed() ==> z.inp.Pos() <= f.pos + Lag(f, z.mode == CodesMode)
  {
    hide StreamClean, Leads, Affords, HeaderShort, TreesOK, Holds, Low, Pow2, Shr, Bits, ModeOK, Clean, Reaches,
         ReadSymbol, LensOK, StreamStep;
    OnTheWay(z.inp.input, z.origin, z.a, f);
    if z.mode == CodesMode {
      CodesBehind(z, f);
    } else if z.mode == Lens {
      LensBehind(z, f);
    } else if z.mode == BTree || z.mode == DTree {
      HeaderBehind(z, f);
    }
  }

  lemma LensBehind(z: Inflater, f: Stream)
    requires z.Valid() && ComesTo(z.inp.input, z.origin, f) && z.mode == Lens
    ensures z.inp.Pos() <= f.pos + Lag(f, false) && z.win.hist <= f.hist
  {
    hide StreamClean, Leads, Affords, HeaderShort, TreesOK, Holds, Low, Pow2, Shr, Bits;
    LeadsStep(z.inp.input, z.origin, z.a);
    OnTheWay(z.inp.input, z.origin, z.a, f);
    OnTheWay(z.inp.input, z.origin, StreamStep(z.inp.input, z.a), f);
  }

  lemma PreambleEnds(t: nat, input: seq<Byte>, pos: nat)
    requires ReadSized(t, input, pos).Preamble?
    ensures var bl := BitLengths(BitCodes(t), Bits(input, pos + 14));
            var r := ReadLengths(bl, TotalCodes(t), input, pos + 14 + 3 * BitCodes(t), []);
            r.Lengths? && r.pos == ReadSized(t, input, pos).end
  {
    hide Low, Shr, Pow2, Bits, Accepted, BitLengths, ReadLengths;
  }

  /** A header that is good has been read at most to its end, any other at most
      as far as a header goes. */
  lemma HeaderBehind(z: Inflater, f: Stream)
    requires z.Valid() && ComesTo(z.inp.input, z.origin, f) && (z.mode == BTree || z.mode == DTree)
    ensures z.inp.Pos() <= f.pos + Lag(f, false) && z.win.hist <= f.hist
  {
    hide StreamClean, Leads, Affords, HeaderShort, TreesOK, Holds, Low, Pow2, Shr, Bits, BordersRead, BitsTable,
         Accepted, BitLengths, HeaderStep, StoredStep, Step, ReadSized, ReadLengths, BitsShort;
    LeadsStep(z.inp.input, z.origin, z.a);
    OnTheWay(z.inp.input, z.origin, z.a, f);
    OnTheWay(z.inp.input, z.origin, StreamStep(z.inp.input, z.a), f);
    if ReadSized(z.trees.table, z.inp.input, z.a.pos).Preamble? {
      PreambleEnds(z.trees.table, z.inp.input, z.a.pos);
    }
  }

  lemma CodesBehind(z: Inflater, f: Stream)
    requires z.Valid() && ComesTo(z.inp.input, z.origin, f) && z.mode == CodesMode
    ensures z.win.hist <= f.hist && (!z.Failed() ==> z.inp.Pos() <= f.pos + SYMBOL_BITS)
  {
    hide StreamClean, Leads, Affords, HeaderShort, TreesOK, Holds, Low, Pow2, Shr, Bits, ModeOK, Clean, Reaches,
         ReadSymbol, Canon;
    var d, input := z.dec, z.inp.input;
    ReachesLeads(input, d.codes, z.last, d.begin, d.at);
    var t := Stream(Coded(d.codes), z.last, d.at.pos, d.at.hist);
    LeadsTrans(input, z.origin, z.a, t);
    LeadsStep(input, z.origin, t);
    OnTheWay(input, z.origin, t, f);
    OnTheWay(input, z.origin, StreamStep(input, t), f);
    if d.mode.BadMode? {
      BadStays(d);
    } else {
      ModeBehind(d.tr, d.codes, input, d.at, d.mode, d.len, z.inp.Pos(), z.win.hist);
    }
  }

  lemma BadStays(d: Decoder)
    requires d.Valid() && d.mode.BadMode?
    ensures d.win.hist == d.at.hist
  {
    hide Low, Pow2, Shr, Bits, Holds, Clean, Reaches, TreesOK, ReadSymbol, Canon, Continues, HasExtra, CopyBack;
  }

  /** What inflate_blocks has to answer in the end about a stream that comes to
      `f`. */
  ghost function Verdict(z: Inflater, f: Stream): int {
    if Starved(z.inp.input, z.memory, z.origin) then Z_MEM_ERROR
    else if f.phase == Finished then Z_STREAM_END else Z_DATA_ERROR
  }

  /** With the whole stream at hand, and eight more bytes or what a header may
      take, and room for what it decodes to, one call of inflate_blocks tells
      what the stream comes to: it reports the end, has delivered exactly what
      the stream decodes to and left the input pointer on the first byte after
      it; or it reports the error.  Memory is reported to be short exactly when
      the trees of some block on the way do not fit. */
  method InflateWhole(z: Inflater, ghost f: Stream) returns (r: int)
    requires z.Valid() && ComesTo(z.inp.input, z.origin, f) && Enough(z, f)
    modifies z, z.inp, z.win, z.win.data, z.Inner()
    ensures z.Valid() && r == Verdict(z, f) && WSIZE <= |f.hist| && z.win.out <= f.hist[WSIZE..]
    ensures r == Z_STREAM_END ==> z.a == f && 8 * z.inp.p == Aligned(f.pos) && z.win.out == f.hist[WSIZE..]
  {
    hide StreamClean, Leads, Affords, HeaderShort, TreesOK, Holds, Low, Pow2, Shr, Bits, ModeOK, Clean, Reaches,
         StreamStep, Starved;
    r := z.InflateBlocks(Z_OK);
    MustTell(z, f, r);
    Behind(z, f);
    Delivered(z.win, f);
  }

  /** How much input has to follow for the inflater to tell: eight bytes after an
      end, what a header may take where the stream is broken. */
  function After(f: Stream): nat {
    if f.phase == Broken then HEADER_BITS + 32 else 64
  }

  /** All of the stream is at hand and enough after it, and there is room for
      what it decodes to. */
  ghost predicate Enough(z: Inflater, f: Stream)
    reads z, z.inp, z.win
  {
    z.inp.p + z.inp.n == |z.inp.input| && f.pos + After(f) <= 8 * |z.inp.input|
    && |z.win.out| + z.win.availOut + WSIZE >= |f.hist|
  }

  /** A call either tells what the stream comes to, or has to wait for input or
      room. */
  lemma Tells(z: Inflater, f: Stream, r: int)
    requires z.Valid() && z.Result(r) && ComesTo(z.inp.input, z.origin, f)
    ensures r == Verdict(z, f) || ((r == Z_OK || r == Z_BUF_ERROR) && !z.Failed() && z.Stalled())
    ensures r == Z_STREAM_END ==> z.a == f
  {
    hide StreamClean, Leads, HeaderShort, TreesOK, Holds, Low, Pow2, Shr, Bits, ModeOK, Clean, Reaches, StreamStep,
         LensOK, Affords;
    OnTheWay(z.inp.input, z.origin, z.a, f);
    if r == Z_DATA_ERROR {
      var t :| Affords(z.inp.input, z.memory, z.origin, t) && t.phase == Broken;
      AffordsLeads(z.inp.input, z.memory, z.origin, t);
      OnTheWay(z.inp.input, z.origin, t, f);
      AffordedEnd(z.inp.input, z.memory, z.origin, t);
    } else if r == Z_MEM_ERROR {
      LeadsShort(z.inp.input, z.memory, z.origin, z.a);
    } else if r == Z_STREAM_END {
      AffordedEnd(z.inp.input, z.memory, z.origin, z.a);
    }
  }

  lemma LeadsShort(input: seq<Byte>, memory: nat, s: Stream, t: Stream)
    requires Leads(input, s, t) && ShortAt(input, memory, t)
    ensures Starved(input, memory, s)
  {
    hide ShortAt, StreamStep;
    var n: nat :| StreamRun(input, s, n) == t;
  }

  lemma MustTell(z: Inflater, f: Stream, r: int)
    requires z.Valid() && z.Result(r) && ComesTo(z.inp.input, z.origin, f) && Enough(z, f)
    ensures r == Verdict(z, f) && (r == Z_STREAM_END ==> z.a == f)
    ensures WSIZE <= |f.hist|
  {
    hide StreamClean, Leads, Affords, HeaderShort, TreesOK, Holds, Low, Pow2, Shr, Bits, ModeOK, Clean, Reaches,
         StreamStep, LensOK, Starved;
    Behind(z, f);
    Tells(z, f, r);
    Outstanding(z.win);
  }

  /** On the way to an end no header is bad, or undecided. */
  lemma CleanHeader(input: seq<Byte>, s: Stream, t: Stream, f: Stream)
    requires Leads(input, s, t) && t.phase == Dynamic && EndsIn(input, s, f)
    ensures ReadPreamble(input, t.pos).Preamble?
  {
    hide ReadPreamble, Leads;
    LeadsStep(input, s, t);
    OnTheWay(input, s, StreamStep(input, t), f);
  }

  lemma Outstanding(w: Window)
    requires w.Valid()
    ensures |w.out| + w.Pending() + WSIZE == |w.hist|
  {
  }

  // --------------------------------------------------- any division of space

  /** What the caller makes available before a call. */
  datatype Grant = Grant(input: nat, room: nat)

  function Inputs(grants: seq<Grant>): nat {
    if |grants| == 0 then 0 else Inputs(grants[..|grants| - 1]) + grants[|grants| - 1].input
  }

  function Rooms(grants: seq<Grant>): nat {
    if |grants| == 0 then 0 else Rooms(grants[..|grants| - 1]) + grants[|grants| - 1].room
  }

  /** However the caller divides input and output space over calls, what has
      been delivered, and what is still pending after it, is a beginning of what
      the stream decodes to; once the end is reported it is all of it, and an
      error is reported only when the stream comes to it.  When the calls have
      been given all input and room enough, the last one tells what the stream
      comes to. */
  method InflateInPieces(z: Inflater, grants: seq<Grant>, ghost f: Stream) returns (r: int)
    requires z.Valid() && ComesTo(z.inp.input, z.origin, f)
    requires z.inp.p + z.inp.n + Inputs(grants) <= |z.inp.input|
    modifies z, z.inp, z.win, z.win.data, z.Inner()
    ensures z.Valid() && WSIZE <= |f.hist| && z.win.out <= f.hist[WSIZE..] && z.win.hist <= f.hist
    ensures r == Z_STREAM_END ==> z.win.out == f.hist[WSIZE..] && 8 * z.inp.p == Aligned(f.pos)
    ensures r == Z_OK || r == Z_BUF_ERROR || r == Verdict(z, f)
    ensures (|grants| > 0 && old(z.inp.p + z.inp.n) + Inputs(grants) == |z.inp.input|
             && f.pos + After(f) <= 8 * |z.inp.input|
             && old(|z.win.out| + z.win.availOut) + Rooms(grants) + WSIZE >= |f.hist|)
            ==> r == Verdict(z, f)
  {
    hide StreamClean, Leads, Affords, HeaderShort, TreesOK, Holds, Low, Pow2, Shr, Bits, ModeOK, Clean, Reaches,
         StreamStep, LensOK, Starved;
    r := Z_OK;
    var i := 0;
    assert grants[..0] == [];
    while i < |grants|
      invariant 0 <= i <= |grants| && z.Valid()
      invariant z.inp.p + z.inp.n == old(z.inp.p + z.inp.n) + Inputs(grants[..i])
      invariant fresh(z.Inner() - old(z.Inner()))
      invariant |z.win.out| + z.win.availOut == old(|z.win.out| + z.win.availOut) + Rooms(grants[..i])
      invariant i > 0 && Enough(z, f) ==> r == Verdict(z, f)
      invariant r == Z_OK || r == Z_BUF_ERROR || r == Verdict(z, f)
      invariant r == Z_STREAM_END ==>
                  WSIZE <= |f.hist| && z.a == f && z.win.out == f.hist[WSIZE..] && 8 * z.inp.p == Aligned(f.pos)
                  && z.mode == Done
    {
      InputsSplit(grants, i);
      var j := Call(z, grants[i], f);
      r := j;
      i := i + 1;
    }
    assert grants[..|grants|] == grants;
    Behind(z, f);
    Delivered(z.win, f);
  }

  method Call(z: Inflater, g: Grant, ghost f: Stream) returns (r: int)
    requires z.Valid() && ComesTo(z.inp.input, z.origin, f)
    requires z.inp.p + z.inp.n + g.input <= |z.inp.input|
    modifies z, z.inp, z.win, z.win.data, z.Inner()
    ensures z.Valid() && z.inp.p + z.inp.n == old(z.inp.p + z.inp.n) + g.input
    ensures |z.win.out| + z.win.availOut == old(|z.win.out| + z.win.availOut) + g.room
    ensures Enough(z, f) ==> r == Verdict(z, f)
    ensures r == Z_OK || r == Z_BUF_ERROR || r == Verdict(z, f)
    ensures fresh(z.Inner() - old(z.Inner()))
    ensures WSIZE <= |f.hist|
    ensures r == Z_STREAM_END ==>
              z.a == f && z.win.out == f.hist[WSIZE..] && 8 * z.inp.p == Aligned(f.pos) && z.mode == Done
  {
    hide StreamClean, Leads, Affords, HeaderShort, TreesOK, Holds, Low, Pow2, Shr, Bits, ModeOK, Clean, Reaches,
         StreamStep, LensOK, Starved;
    Give(z, g);
    r := z.InflateBlocks(Z_BUF_ERROR);
    Behind(z, f);
    Tells(z, f, r);
    if Enough(z, f) { MustTell(z, f, r); }
  }

  /** More input and more room leave the state as it is. */
  method Give(z: Inflater, g: Grant)
    requires z.Valid() && z.inp.p + z.inp.n + g.input <= |z.inp.input|
    modifies z.inp`n, z.win`availOut
    ensures z.Valid() && z.inp.p + z.inp.n == old(z.inp.p + z.inp.n) + g.input
    ensures |z.win.out| + z.win.availOut == old(|z.win.out| + z.win.availOut) + g.room
  {
    hide StreamClean, Leads, Affords, HeaderShort, TreesOK, Holds, Low, Pow2, Shr, Bits, ModeOK, Clean, Reaches,
         StreamStep, LensOK;
    z.inp.n := z.inp.n + g.input;
    z.win.availOut := z.win.availOut + g.room;
  }

  lemma InputsSplit(grants: seq<Grant>, i: nat)
    requires i < |grants|
    ensures Inputs(grants[..i + 1]) == Inputs(grants[..i]) + grants[i].input
    ensures Rooms(grants[..i + 1]) == Rooms(grants[..i]) + grants[i].room
    ensures Inputs(grants[..i + 1]) <= Inputs(grants)
  {
    assert grants[..i + 1][..i] == grants[..i];
    InputsMono(grants, i + 1);
  }

  lemma {:induction false} InputsMono(grants: seq<Grant>, i: nat)
    requires i <= |grants|
    ensures Inputs(grants[..i]) <= Inputs(grants)
    decreases |grants|
  {
    if i < |grants| {
      var g := grants[..|grants| - 1];
      InputsMono(g, i);
      assert g[..i] == grants[..i];
    } else {
      assert grants[..i] == grants;
    }
  }

  lemma Delivered(w: Window, f: Stream)
    requires w.Valid() && w.hist <= f.hist
    ensures WSIZE <= |f.hist| && w.out <= f.hist[WSIZE..]
  {
  }
}
