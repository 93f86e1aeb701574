// Where the decoder of a compressed block stands inside a symbol, and how the
// table lookups carry it from one mode to the next.
module CodesState {
  import opened Words
  import opened Canonical
  import opened HuffmanTables
  import opened BitStream
  import opened SlidingWindow
  import opened InflateSpec

  /** inflate_codes_state: the mode with the data that belongs to it. */
  datatype Mode =
    | Start                         // between two symbols
    | Len(tree: nat, need: nat)     // on the way through the literal tables
    | LenExt(get: nat)              // a length is known but for its extra bits
    | Dist(tree: nat, need: nat)    // on the way through the distance tables
    | DistExt(get: nat, base: nat)  // a distance is known but for its extra bits
    | Copy(dist: nat)               // `len` bytes of a match are still to be written
    | Lit(lit: Byte)                // a byte waits for room
    | Wash                          // the block has ended, bytes may be pending
    | End                           // the block has ended, nothing is pending
    | BadMode                       // no symbol begins here

  /** The two trees of a block and the codes they stand for. */
  datatype Trees = Trees(ltree: seq<seq<Huft>>, lbits: nat, dtree: seq<seq<Huft>>, dbits: nat)

  ghost predicate TreesOK(tr: Trees, c: Codes) {
    ValidCodes(c) && TreeFor(tr.ltree, tr.lbits, LITLEN, c.lit) && TreeFor(tr.dtree, tr.dbits, DIST, c.dst)
  }

  /** What is read at a clean state has a tree. */
  lemma CleanTrees(tr: Trees, c: Codes, input: seq<Byte>, at: State)
    requires TreesOK(tr, c) && CleanAt(c, input, at)
    ensures TreeOK(tr.ltree, tr.lbits, LITLEN, c.lit)
    ensures var lit := Canon(LITLEN, c.lit, Bits(input, at.pos));
            HasExtra(lit.entry.exop) ==> TreeOK(tr.dtree, tr.dbits, DIST, c.dst)
  {
    hide TreeOK, TreeFor, Definite, Canon, HasExtra;
    DefiniteTree(tr.ltree, tr.lbits, LITLEN, c.lit, Bits(input, at.pos));
    var lit := Canon(LITLEN, c.lit, Bits(input, at.pos));
    if HasExtra(lit.entry.exop) {
      DefiniteTree(tr.dtree, tr.dbits, DIST, c.dst, Bits(input, at.pos + ExtendedUsed(lit)));
    }
  }

  /** After `w` bits of `str` the walk from the root has come to table `t`. */
  ghost predicate Continues(tables: seq<seq<Huft>>, need0: nat, str: nat, w: nat, t: nat, need: nat) {
    t < |tables| && |tables[t]| == Pow2(need) && need <= LOOKUP_BITS
    && w + Lookahead(tables, t, need, Shr(w, str)) <= BMAX
    && var x := Walk(tables, t, need, Shr(w, str));
       Walk(tables, 0, need0, str) == Found(x.entry, w + x.used)
  }

  /** What is known in each mode; `at` is the state before the current symbol,
      `pos` and `hist` are the current ones. */
  ghost predicate ModeOK(tr: Trees, c: Codes, input: seq<Byte>, at: State, mode: Mode, len: nat, pos: nat,
                         hist: seq<Byte>) {
    var str := Bits(input, at.pos);
    var lit := Canon(LITLEN, c.lit, str);
    var dpos := at.pos + ExtendedUsed(lit);
    var dst := Canon(DIST, c.dst, Bits(input, dpos));
    at.pos <= pos && |at.hist| >= WSIZE
    && match mode
       case Start => at == State(pos, hist)
       case Len(t, need) => at.hist == hist && Continues(tr.ltree, tr.lbits, str, pos - at.pos, t, need)
       case LenExt(get) => at.hist == hist && HasExtra(lit.entry.exop) && pos == at.pos + lit.used
                           && get == lit.entry.exop % 16 && len == lit.entry.more
       case Dist(t, need) => at.hist == hist && HasExtra(lit.entry.exop) && len == Extended(lit, str)
                             && dpos <= pos && Continues(tr.dtree, tr.dbits, Bits(input, dpos), pos - dpos, t, need)
       case DistExt(get, base) => at.hist == hist && HasExtra(lit.entry.exop) && len == Extended(lit, str)
                                  && HasExtra(dst.entry.exop) && pos == dpos + dst.used
                                  && get == dst.entry.exop % 16 && base == dst.entry.more
       case Copy(dist) => CopyOK(ReadSymbol(c, str), at, len, dist, pos, hist)
       case Lit(b) => at.hist == hist && ReadSymbol(c, str).Literal? && ReadSymbol(c, str) == Literal(b, pos - at.pos)
       case Wash => at.hist == hist && ReadSymbol(c, str) == EndBlock(pos - at.pos)
       case End => at.hist == hist && ReadSymbol(c, str) == EndBlock(pos - at.pos)
       case BadMode => at.hist == hist && ReadSymbol(c, str) == BadCode
  }

  /** Part of a match has been copied; `len` bytes remain. */
  ghost predicate CopyOK(sym: Symbol, at: State, len: nat, dist: nat, pos: nat, hist: seq<Byte>) {
    sym.Match? && at.pos + sym.used == pos && sym.dist == dist && 1 <= dist <= WSIZE && len <= sym.len
    && hist == CopyBack(at.hist, sym.len - len, dist)
  }

  lemma ReadAt(c: Codes, input: seq<Byte>, pos: nat)
    ensures var str := Bits(input, pos);
            var lit := Canon(LITLEN, c.lit, str);
            Shr(ExtendedUsed(lit), str) == Bits(input, pos + ExtendedUsed(lit))
            && ReadSymbol(c, str) == SymbolOf(lit, Canon(DIST, c.dst, Bits(input, pos + ExtendedUsed(lit))), str)
  {
    hide Canon, SymbolOf, Bits, Shr;
    BitsSkip(input, pos, ExtendedUsed(Canon(LITLEN, c.lit, Bits(input, pos))));
  }

  /** A lookup is inside its table and takes no more bits than were asked for. */
  lemma LookupSafe(tables: seq<seq<Huft>>, need0: nat, al: Alphabet, lens: seq<nat>, t: nat, need: nat, x: nat)
    requires TreeOK(tables, need0, al, lens) && t < |tables| && |tables[t]| == Pow2(need) && x < Pow2(need)
    ensures SlotSafe(tables, t, tables[t][x]) && 0 < tables[t][x].bits <= need
  {
    var e := tables[t][x];
    assert SlotSafe(tables, t, e);
    if e.bits > need { Pow2Mono(need + 1, e.bits); }
  }

  /** One lookup either goes on to a subtable or ends the walk. */
  lemma LookupContinues(tables: seq<seq<Huft>>, need0: nat, al: Alphabet, lens: seq<nat>,
                        str: nat, w: nat, t: nat, need: nat)
    requires TreeOK(tables, need0, al, lens) && Continues(tables, need0, str, w, t, need)
    ensures var e := tables[t][Low(need, Shr(w, str))];
            if IsLink(e) then Continues(tables, need0, str, w + e.bits, e.more, e.exop)
            else Walk(tables, 0, need0, str) == Found(e, w + e.bits)
  {
    hide Low, Pow2;
    var e := tables[t][Low(need, Shr(w, str))];
    LookupSafe(tables, need0, al, lens, t, need, Low(need, Shr(w, str)));
    ShrShr(w, e.bits, str);
  }

  lemma LenStarts(tr: Trees, c: Codes, input: seq<Byte>, at: State, len: nat)
    requires TreesOK(tr, c) && CleanAt(c, input, at) && |at.hist| >= WSIZE
    ensures ModeOK(tr, c, input, at, Len(0, tr.lbits), len, at.pos, at.hist)
  {
    hide ReadSymbol, Canon, Walk;
    CleanTrees(tr, c, input, at);
    assert Shr(0, Bits(input, at.pos)) == Bits(input, at.pos);
  }

  /** Where a literal/length lookup leads. */
  function AfterLen(e: Huft): Mode {
    if e.exop == 0 then Lit(e.more % 256)
    else if HasExtra(e.exop) then LenExt(e.exop % 16)
    else if (e.exop / 64) % 2 == 0 then Len(e.more, e.exop)
    else if IsEnd(e.exop) then Wash
    else BadMode
  }

  /** A finished literal/length walk decides the mode. */
  lemma LenDecides(tr: Trees, c: Codes, input: seq<Byte>, at: State, e: Huft, w: nat, len: nat)
    requires TreesOK(tr, c) && CleanAt(c, input, at) && |at.hist| >= WSIZE && !IsLink(e)
    requires Walk(tr.ltree, 0, tr.lbits, Bits(input, at.pos)) == Found(e, w)
    ensures e.exop == 0 ==> e.more < 256
    ensures ModeOK(tr, c, input, at, AfterLen(e), if HasExtra(e.exop) then e.more else len, at.pos + w, at.hist)
    ensures AfterLen(e).Lit? || AfterLen(e).LenExt? || AfterLen(e).Wash? || AfterLen(e).BadMode?
  {
    hide Low, Pow2, Walk, Shr, StartsWith, SymbolAt, EntryOf;
    CleanTrees(tr, c, input, at);
    var str := Bits(input, at.pos);
    assert Agrees(LITLEN, c.lit, str, Walk(tr.ltree, 0, tr.lbits, str));
    LitEntry(SymbolAt(c.lit, str));
    ReadAt(c, input, at.pos);
    LitKinds(e.exop);
    LinkKind(e);
  }

  lemma LenLooksUp(tr: Trees, c: Codes, input: seq<Byte>, at: State, t: nat, need: nat, len: nat, pos: nat,
                   hist: seq<Byte>)
    requires TreesOK(tr, c) && CleanAt(c, input, at) && ModeOK(tr, c, input, at, Len(t, need), len, pos, hist)
    ensures var x := Low(need, Bits(input, pos));
            t < |tr.ltree| && x < |tr.ltree[t]| && need <= LOOKUP_BITS
            && var e := tr.ltree[t][x];
            (e.exop == 0 ==> e.more < 256)
            && 0 < e.bits <= need
            && ModeOK(tr, c, input, at, AfterLen(e), if HasExtra(e.exop) then e.more else len, pos + e.bits, hist)
  {
    hide Low, Pow2, Walk, Shr, StartsWith, SymbolAt, EntryOf;
    CleanTrees(tr, c, input, at);
    var str, w := Bits(input, at.pos), pos - at.pos;
    BitsSkip(input, at.pos, w);
    var x := Low(need, Bits(input, pos));
    var e := tr.ltree[t][x];
    LookupSafe(tr.ltree, tr.lbits, LITLEN, c.lit, t, need, x);
    LookupContinues(tr.ltree, tr.lbits, LITLEN, c.lit, str, w, t, need);
    LinkKind(e);
    if !IsLink(e) {
      LenDecides(tr, c, input, at, e, w + e.bits, len);
    }
  }

  lemma LitKinds(exop: nat)
    ensures exop == END_OF_BLOCK ==> !HasExtra(exop) && IsEnd(exop) && (exop / 64) % 2 == 1
    ensures exop == INVALID_CODE ==> !HasExtra(exop) && !IsEnd(exop) && (exop / 64) % 2 == 1
  {
  }

  lemma LinkKind(e: Huft)
    ensures IsLink(e) <==> e.exop != 0 && !HasExtra(e.exop) && (e.exop / 64) % 2 == 0
  {
  }

  lemma LenExtends(tr: Trees, c: Codes, input: seq<Byte>, at: State, get: nat, len: nat, pos: nat, hist: seq<Byte>)
    requires TreesOK(tr, c) && CleanAt(c, input, at) && ModeOK(tr, c, input, at, LenExt(get), len, pos, hist)
    ensures get <= 5
    ensures ModeOK(tr, c, input, at, Dist(0, tr.dbits), len + Low(get, Bits(input, pos)), pos + get, hist)
    ensures pos + get == at.pos + ExtendedUsed(Canon(LITLEN, c.lit, Bits(input, at.pos)))
  {
    hide Low, Pow2, Walk, StartsWith, SymbolAt, EntryOf, ReadSymbol, SlotSafe, Agrees;
    CleanTrees(tr, c, input, at);
    var str := Bits(input, at.pos);
    BitsSkip(input, at.pos, pos - at.pos);
    LitEntry(SymbolAt(c.lit, str));
    assert Shr(0, Bits(input, pos + get)) == Bits(input, pos + get);
  }

  /** Where a distance lookup leads. */
  function AfterDist(e: Huft): Mode {
    if HasExtra(e.exop) then DistExt(e.exop % 16, e.more)
    else if (e.exop / 64) % 2 == 0 then Dist(e.more, e.exop)
    else BadMode
  }

  /** A finished distance walk decides the mode. */
  lemma DistDecides(tr: Trees, c: Codes, input: seq<Byte>, at: State, e: Huft, w: nat, len: nat)
    requires TreesOK(tr, c) && CleanAt(c, input, at) && |at.hist| >= WSIZE && !IsLink(e)
    requires var lit := Canon(LITLEN, c.lit, Bits(input, at.pos));
             HasExtra(lit.entry.exop) && len == Extended(lit, Bits(input, at.pos))
             && Walk(tr.dtree, 0, tr.dbits, Bits(input, at.pos + ExtendedUsed(lit))) == Found(e, w)
    ensures ModeOK(tr, c, input, at, AfterDist(e), len,
                   at.pos + ExtendedUsed(Canon(LITLEN, c.lit, Bits(input, at.pos))) + w, at.hist)
    ensures AfterDist(e).DistExt? || AfterDist(e).BadMode?
  {
    hide Low, Pow2, Walk, Shr, StartsWith, SymbolAt, EntryOf;
    CleanTrees(tr, c, input, at);
    var str := Bits(input, at.pos + ExtendedUsed(Canon(LITLEN, c.lit, Bits(input, at.pos))));
    assert Agrees(DIST, c.dst, str, Walk(tr.dtree, 0, tr.dbits, str));
    DistEntry(SymbolAt(c.dst, str));
    ReadAt(c, input, at.pos);
    LitKinds(e.exop);
    LinkKind(e);
  }

  lemma DistLooksUp(tr: Trees, c: Codes, input: seq<Byte>, at: State, t: nat, need: nat, len: nat, pos: nat,
                    hist: seq<Byte>)
    requires TreesOK(tr, c) && CleanAt(c, input, at) && ModeOK(tr, c, input, at, Dist(t, need), len, pos, hist)
    ensures var x := Low(need, Bits(input, pos));
            t < |tr.dtree| && x < |tr.dtree[t]| && need <= LOOKUP_BITS
            && var e := tr.dtree[t][x];
            0 < e.bits <= need && ModeOK(tr, c, input, at, AfterDist(e), len, pos + e.bits, hist)
  {
    hide Low, Pow2, Walk, Shr, StartsWith, SymbolAt, EntryOf;
    CleanTrees(tr, c, input, at);
    var dpos := at.pos + ExtendedUsed(Canon(LITLEN, c.lit, Bits(input, at.pos)));
    var str, w := Bits(input, dpos), pos - dpos;
    BitsSkip(input, dpos, w);
    var x := Low(need, Bits(input, pos));
    var e := tr.dtree[t][x];
    LookupSafe(tr.dtree, tr.dbits, DIST, c.dst, t, need, x);
    LookupContinues(tr.dtree, tr.dbits, DIST, c.dst, str, w, t, need);
    LinkKind(e);
    if !IsLink(e) {
      DistDecides(tr, c, input, at, e, w + e.bits, len);
    }
  }

  lemma DistExtends(tr: Trees, c: Codes, input: seq<Byte>, at: State, get: nat, base: nat, len: nat, pos: nat,
                    hist: seq<Byte>)
    requires TreesOK(tr, c) && ModeOK(tr, c, input, at, DistExt(get, base), len, pos, hist)
    ensures get <= 13
    ensures ModeOK(tr, c, input, at, Copy(base + Low(get, Bits(input, pos))), len, pos + get, hist)
  {
    hide Low, Pow2, Walk, Shr, StartsWith, SymbolAt, EntryOf, ReadSymbol, SlotSafe, Agrees;
    var str := Bits(input, at.pos);
    var dpos := at.pos + ExtendedUsed(Canon(LITLEN, c.lit, str));
    BitsSkip(input, dpos, pos - dpos);
    ReadAt(c, input, at.pos);
    DistEntry(SymbolAt(c.dst, Bits(input, dpos)));
  }

  lemma CopyStep(tr: Trees, c: Codes, input: seq<Byte>, at: State, dist: nat, len: nat, pos: nat, hist: seq<Byte>)
    requires ModeOK(tr, c, input, at, Copy(dist), len, pos, hist) && len > 0
    ensures 1 <= dist <= WSIZE <= |hist|
    ensures ModeOK(tr, c, input, at, Copy(dist), len - 1, pos, hist + [hist[|hist| - dist]])
  {
    hide ReadSymbol, Canon;
  }

  /** Some modes do not use the length. */
  lemma LenUnused(tr: Trees, c: Codes, input: seq<Byte>, at: State, mode: Mode, len: nat, len': nat, pos: nat,
                  hist: seq<Byte>)
    requires mode.Start? || mode.Wash? || mode.End? || mode.BadMode? || mode.Len?
    ensures ModeOK(tr, c, input, at, mode, len, pos, hist) == ModeOK(tr, c, input, at, mode, len', pos, hist)
  {
    hide ReadSymbol, Canon, Continues;
  }

  /** Copying a whole match at once. */
  lemma CopyAll(tr: Trees, c: Codes, input: seq<Byte>, at: State, dist: nat, len: nat, pos: nat, hist: seq<Byte>)
    requires ModeOK(tr, c, input, at, Copy(dist), len, pos, at.hist)
    requires hist == CopyBack(at.hist, len, dist)
    ensures 1 <= dist <= WSIZE && ModeOK(tr, c, input, at, Copy(dist), 0, pos, hist)
  {
    hide ReadSymbol, Canon;
    assert |CopyBack(at.hist, ReadSymbol(c, Bits(input, at.pos)).len - len, dist)| == |at.hist|;
  }

  /** A finished match or a written literal is a whole symbol. */
  lemma SymbolDone(tr: Trees, c: Codes, input: seq<Byte>, at: State, mode: Mode, len: nat, pos: nat, hist: seq<Byte>)
    requires ModeOK(tr, c, input, at, mode, len, pos, hist)
    requires (mode.Copy? && len == 0) || mode.Lit?
    ensures var hist' := if mode.Lit? then hist + [mode.lit] else hist;
            Step(c, input, at) == Going(State(pos, hist'))
            && ModeOK(tr, c, input, State(pos, hist'), Start, len, pos, hist')
  {
    hide ReadSymbol, Canon;
  }

  /** A length that is not a reserved one is between 3 and 258. */
  lemma LengthBounds(tr: Trees, c: Codes, input: seq<Byte>, at: State)
    requires TreesOK(tr, c) && CleanAt(c, input, at)
    requires HasExtra(Canon(LITLEN, c.lit, Bits(input, at.pos)).entry.exop)
    ensures 3 <= Extended(Canon(LITLEN, c.lit, Bits(input, at.pos)), Bits(input, at.pos)) <= 258
  {
    hide Low, Pow2, Shr, StartsWith, SymbolAt, EntryOf, TreeOK;
    LitEntry(SymbolAt(c.lit, Bits(input, at.pos)));
  }
}
