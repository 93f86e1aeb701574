// Compressed blocks as RFC 1951 describes them: what each symbol of a block
// says, and what it does to the bytes decoded so far.
module InflateSpec {
  import opened Words
  import opened Canonical
  import opened HuffmanTables
  import opened BitStream
  import opened SlidingWindow

  // Section 3.2.5 of RFC 1951; the last two length codes are never used.
  const CPLENS: seq<nat> :=
    [3, 4, 5, 6, 7, 8, 9, 10, 11, 13, 15, 17, 19, 23, 27, 31,
     35, 43, 51, 59, 67, 83, 99, 115, 131, 163, 195, 227, 258, 0, 0]
  const CPLEXT: seq<nat> :=
    [0, 0, 0, 0, 0, 0, 0, 0, 1, 1, 1, 1, 2, 2, 2, 2,
     3, 3, 3, 3, 4, 4, 4, 4, 5, 5, 5, 5, 0, 192, 192]
  const CPDIST: seq<nat> :=
    [1, 2, 3, 4, 5, 7, 9, 13, 17, 25, 33, 49, 65, 97, 129, 193,
     257, 385, 513, 769, 1025, 1537, 2049, 3073, 4097, 6145,
     8193, 12289, 16385, 24577]
  const CPDEXT: seq<nat> :=
    [0, 0, 0, 0, 1, 1, 2, 2, 3, 3, 4, 4, 5, 5, 6, 6,
     7, 7, 8, 8, 9, 9, 10, 10, 11, 11, 12, 12, 13, 13]

  const LITLEN: Alphabet := Alphabet(257, CPLENS, CPLEXT)
  const DIST: Alphabet := Alphabet(0, CPDIST, CPDEXT)

  /** The code lengths in force in a block. */
  datatype Codes = Codes(lit: seq<nat>, dst: seq<nat>)

  predicate ValidCodes(c: Codes) {
    ValidLengths(c.lit) && ValidLengths(c.dst) && |c.dst| <= 30
  }

  /** The symbol whose code `str` starts with, or -1. */
  ghost function SymbolAt(lens: seq<nat>, str: nat): (r: int)
    ensures r == -1 || (0 <= r < |lens| && StartsWith(lens, r, str))
    ensures r == -1 ==> forall sym :: 0 <= sym < |lens| ==> !StartsWith(lens, sym, str)
  {
    if sym :| 0 <= sym < |lens| && StartsWith(lens, sym, str) then sym else -1
  }

  function EntryOf(al: Alphabet, sym: int): Huft {
    if sym < 0 then Huft(INVALID_CODE, 0, 0) else Huft(SymbolExop(al, sym), 0, SymbolBase(al, sym))
  }

  /** The entry of that symbol, and the length of its code. */
  ghost function Canon(al: Alphabet, lens: seq<nat>, str: nat): Found {
    var sym := SymbolAt(lens, str);
    Found(EntryOf(al, sym), if sym < 0 then 0 else lens[sym])
  }

  /** `e & 16`: a length or distance, with `e & 15` extra bits. */
  predicate HasExtra(exop: nat) { (exop / 16) % 2 == 1 }

  /** `e & 32` */
  predicate IsEnd(exop: nat) { (exop / 32) % 2 == 1 }

  datatype Symbol =
    | Literal(byte: Byte, used: nat)
    | Match(len: nat, dist: nat, used: nat)
    | EndBlock(used: nat)
    | BadCode

  /** Base value plus extra bits. */
  function Extended(f: Found, str: nat): nat {
    f.entry.more + Low(f.entry.exop % 16, Shr(f.used, str))
  }

  function ExtendedUsed(f: Found): nat {
    f.used + f.entry.exop % 16
  }

  /** The next literal, match or end of block. */
  function SymbolOf(lit: Found, dst: Found, str: nat): Symbol {
    if lit.entry.exop == 0 then Literal(lit.entry.more % 256, lit.used)
    else if HasExtra(lit.entry.exop) then
      if HasExtra(dst.entry.exop) then
        Match(Extended(lit, str), Extended(dst, Shr(ExtendedUsed(lit), str)), ExtendedUsed(lit) + ExtendedUsed(dst))
      else BadCode
    else if IsEnd(lit.entry.exop) then EndBlock(lit.used)
    else BadCode
  }

  ghost function ReadSymbol(c: Codes, str: nat): Symbol {
    var lit := Canon(LITLEN, c.lit, str);
    SymbolOf(lit, Canon(DIST, c.dst, Shr(ExtendedUsed(lit), str)), str)
  }

  /** Repeating the byte `dist` back, `len` times. */
  function CopyBack(hist: seq<Byte>, len: nat, dist: nat): (r: seq<Byte>)
    ensures |r| == |hist| + len && r[..|hist|] == hist
  {
    if len == 0 then hist
    else
      var h := CopyBack(hist, len - 1, dist);
      h + [if 1 <= dist <= |h| then h[|h| - dist] else 0]
  }

  /** Position in the stream and everything decoded up to it. */
  datatype State = State(pos: nat, hist: seq<Byte>)

  datatype Progress = Going(s: State) | Ended(s: State) | Failed(s: State)

  ghost function Step(c: Codes, input: seq<Byte>, s: State): Progress {
    match ReadSymbol(c, Bits(input, s.pos))
    case Literal(b, used) => Going(State(s.pos + used, s.hist + [b]))
    case Match(len, dist, used) => Going(State(s.pos + used, CopyBack(s.hist, len, dist)))
    case EndBlock(used) => Ended(State(s.pos + used, s.hist))
    case BadCode => Failed(s)
  }

  /** The state after `n` symbols. */
  ghost function Run(c: Codes, input: seq<Byte>, s: State, n: nat): Progress {
    if n == 0 then Going(s)
    else
      var r := Run(c, input, s, n - 1);
      if r.Going? then Step(c, input, r.s) else r
  }

  ghost predicate Reaches(c: Codes, input: seq<Byte>, s: State, r: Progress) {
    exists n: nat :: Run(c, input, s, n) == r
  }

  /** The tables tell codes from strings that are no code: either every string
      starts with a code, or no symbol lacks one. */
  ghost predicate Recognizable(lens: seq<nat>) {
    ValidLengths(lens) && (Kraft(lens) == Pow2(BMAX) || Count(lens, 0) == 0)
  }

  /** What `str` starts with is decided by values that huft_build has set. */
  ghost predicate Definite(lens: seq<nat>, str: nat) {
    SymbolAt(lens, str) >= 0 || Recognizable(lens)
  }

  /** Every code from here on is a definite one, and none is one of the two
      reserved length codes, which section 3.2.6 of RFC 1951 says never occur. */
  ghost predicate Clean(c: Codes, input: seq<Byte>, s: State) {
    forall n: nat :: Run(c, input, s, n).Going? ==> CleanAt(c, input, Run(c, input, s, n).s)
  }

  ghost predicate CleanAt(c: Codes, input: seq<Byte>, s: State) {
    var lit := Canon(LITLEN, c.lit, Bits(input, s.pos));
    Definite(c.lit, Bits(input, s.pos))
    && (HasExtra(lit.entry.exop) ==> lit.entry.more >= 3 && Definite(c.dst, Bits(input, s.pos + ExtendedUsed(lit))))
  }

  lemma ReachesStep(c: Codes, input: seq<Byte>, s0: State, s: State)
    requires Reaches(c, input, s0, Going(s))
    ensures Reaches(c, input, s0, Step(c, input, s))
  {
    var n: nat :| Run(c, input, s0, n) == Going(s);
    assert Run(c, input, s0, n + 1) == Step(c, input, s);
  }

  lemma ReachesStart(c: Codes, input: seq<Byte>, s: State)
    ensures Reaches(c, input, s, Going(s))
  {
    assert Run(c, input, s, 0) == Going(s);
  }

  lemma {:induction false} RunSplit(c: Codes, input: seq<Byte>, s: State, m: nat, n: nat)
    requires Run(c, input, s, m).Going?
    ensures Run(c, input, s, m + n) == Run(c, input, Run(c, input, s, m).s, n)
  {
    hide Step;
    if n > 0 { RunSplit(c, input, s, m, n - 1); }
  }

  lemma ReachesTrans(c: Codes, input: seq<Byte>, s: State, t: State, r: Progress)
    requires Reaches(c, input, s, Going(t)) && Reaches(c, input, t, r)
    ensures Reaches(c, input, s, r)
  {
    var m: nat :| Run(c, input, s, m) == Going(t);
    var n: nat :| Run(c, input, t, n) == r;
    RunSplit(c, input, s, m, n);
  }

  lemma CleanLater(c: Codes, input: seq<Byte>, s: State, t: State)
    requires Clean(c, input, s) && Reaches(c, input, s, Going(t))
    ensures Clean(c, input, t) && CleanAt(c, input, t)
  {
    var m: nat :| Run(c, input, s, m) == Going(t);
    forall n: nat | Run(c, input, t, n).Going? ensures CleanAt(c, input, Run(c, input, t, n).s) {
      RunSplit(c, input, s, m, n);
    }
    assert Run(c, input, t, 0) == Going(t);
  }

  // -------------------------------------------------------- lookup tables

  /** A set of tables as the decoder relies on it: every lookup stays inside,
      no code is longer than 15 bits, and walking finds the canonical entry. */
  const LOOKUP_BITS: nat := 9   // "must be <= 9 for lookahead assumptions"

  ghost predicate TreeOK(tables: seq<seq<Huft>>, need: nat, al: Alphabet, lens: seq<nat>) {
    |tables| > 0 && 0 < need <= LOOKUP_BITS && |tables[0]| == Pow2(need)
    && (forall t, x :: 0 <= t < |tables| && 0 <= x < |tables[t]| ==> SlotSafe(tables, t, tables[t][x]))
    && (forall str: nat :: (Definite(lens, str) ==> Agrees(al, lens, str, Walk(tables, 0, need, str)))
                           && Lookahead(tables, 0, need, str) <= BMAX)
  }

  /** For lengths that are all zero there are no tables. */
  ghost predicate TreeFor(tables: seq<seq<Huft>>, need: nat, al: Alphabet, lens: seq<nat>) {
    AllZero(lens) || TreeOK(tables, need, al, lens)
  }

  /** Where something definite is read there is a tree. */
  lemma DefiniteTree(tables: seq<seq<Huft>>, need: nat, al: Alphabet, lens: seq<nat>, str: nat)
    requires TreeFor(tables, need, al, lens) && Definite(lens, str)
    ensures TreeOK(tables, need, al, lens)
  {
    hide TreeOK;
    if AllZero(lens) {
      ZeroCount(lens);
      KraftOfNone(lens);
    }
  }

  predicate SlotSafe(tables: seq<seq<Huft>>, t: nat, e: Huft)
    requires t < |tables|
  {
    0 < e.bits && Pow2(e.bits) <= |tables[t]|
    && (IsLink(e) ==> t < e.more < |tables| && e.exop <= LOOKUP_BITS && |tables[e.more]| == Pow2(e.exop))
  }

  ghost predicate Agrees(al: Alphabet, lens: seq<nat>, str: nat, f: Found) {
    var c := Canon(al, lens, str);
    f.entry.exop == c.entry.exop
    && (c.entry.exop != INVALID_CODE ==> f.used == c.used && f.entry.more == c.entry.more)
  }

  // ------------------------------------------------------ sizes of symbols

  lemma SmallPowers()
    ensures Pow2(0) == 1 && Pow2(1) == 2 && Pow2(2) == 4 && Pow2(3) == 8 && Pow2(4) == 16 && Pow2(5) == 32
    ensures Pow2(6) == 64 && Pow2(7) == 128 && Pow2(8) == 256 && Pow2(9) == 512 && Pow2(10) == 1024
    ensures Pow2(11) == 2048 && Pow2(12) == 4096 && Pow2(13) == 8192
  {
    assert Pow2(5) == 32;
    assert Pow2(10) == 1024;
  }

  lemma LengthList(i: nat)
    requires i < 31
    ensures if i < 29 then CPLEXT[i] <= 5 && 3 <= CPLENS[i] && CPLENS[i] + Pow2(CPLEXT[i]) <= 259
            else CPLEXT[i] == INVALID_CODE && CPLENS[i] == 0
  {
    SmallPowers();
    hide Pow2;
    if i < 8 { } else if i < 16 { } else if i < 24 { } else { }
  }

  lemma DistanceList(i: nat)
    requires i < 30
    ensures CPDEXT[i] <= 13 && 1 <= CPDIST[i] && CPDIST[i] + Pow2(CPDEXT[i]) <= WSIZE + 1
  {
    SmallPowers();
    hide Pow2;
    if i < 8 { } else if i < 16 { } else if i < 24 { } else { }
  }

  /** The length codes, with their extra bits, count up from 3 to 258 without a
      gap; 258 has a code of its own. */
  lemma LengthBases(i: nat)
    requires i < 28
    ensures CPLENS[0] == 3 && CPLENS[28] == 258 && CPLEXT[28] == 0
    ensures CPLEXT[i] == if i < 8 then 0 else i / 4 - 1
    ensures i < 27 ==> CPLENS[i + 1] == CPLENS[i] + Pow2(CPLEXT[i])
    ensures i == 27 ==> CPLENS[i] + Pow2(CPLEXT[i]) == 259
  {
    SmallPowers();
    hide Pow2;
    if i < 8 { } else if i < 16 { } else if i < 24 { } else { }
  }

  /** So do the distance codes, from 1 to 32768, which is as far as the window goes. */
  lemma DistanceBases(i: nat)
    requires i < 30
    ensures CPDIST[0] == 1 && WSIZE == 32768
    ensures CPDEXT[i] == if i < 4 then 0 else i / 2 - 1
    ensures CPDIST[i] + Pow2(CPDEXT[i]) == if i < 29 then CPDIST[i + 1] else 32769
  {
    SmallPowers();
    hide Pow2;
    if i < 8 { } else if i < 16 { } else if i < 24 { } else { }
  }

  lemma ListSizes()
    ensures |CPLENS| == |CPLEXT| == 31 && |CPDIST| == |CPDEXT| == 30
  {
  }

  lemma ByteOrEnd(sym: nat)
    requires sym < 257
    ensures !HasExtra(SymbolExop(LITLEN, sym))
  {
  }

  /** The operation byte keeps the number of extra bits in its low half. */
  lemma ExtraByte(x: nat)
    requires x <= 13 || x == INVALID_CODE
    ensures var e := (x + 16 + 64) % 256; HasExtra(e) && e % 16 == if x == INVALID_CODE then 0 else x
  {
  }

  /** The entries a literal/length code can lead to: a byte, the end of the
      block, or a length of at most 258; none of the used ones is below 3. */
  predicate LitOK(e: Huft) {
    (e.exop == 0 ==> e.more < 256)
    && (HasExtra(e.exop) ==> e.exop % 16 <= 5 && (e.more == 0 || 3 <= e.more) && e.more + Pow2(e.exop % 16) <= 259)
    && e.exop < 256 && (e.exop == 0 || HasExtra(e.exop) || e.exop == END_OF_BLOCK || e.exop == INVALID_CODE)
  }

  lemma LitEntry(sym: int)
    requires sym < N_MAX
    ensures LitOK(EntryOf(LITLEN, sym))
  {
    hide HasExtra, CPDIST, CPDEXT, CPLENS, CPLEXT;
    ListSizes();
    if sym >= 257 {
      LengthList(sym - 257);
      ExtraByte(CPLEXT[sym - 257]);
    } else if sym >= 0 {
      ByteOrEnd(sym);
    }
    NoExtra();
    SmallPowers();
  }

  /** The entries of the length codes; the two reserved ones get operation 16, as
      if they were lengths, and base 0. */
  lemma LengthEntries(sym: nat)
    requires 257 <= sym < N_MAX
    ensures var e := EntryOf(LITLEN, sym);
            HasExtra(e.exop) && e.exop % 16 <= 5 && (if sym < 286 then e.more >= 3 else e == Huft(16, 0, 0))
  {
    hide CPLENS, CPLEXT, HasExtra;
    ListSizes();
    LengthList(sym - 257);
    ExtraByte(CPLEXT[sym - 257]);
  }

  /** The count that a length code leads to is a length exactly when the code is
      not one of the two reserved ones, which lead to 0. */
  lemma ReservedLength(lens: seq<nat>, str: nat)
    requires |lens| <= N_MAX && SymbolAt(lens, str) >= 257
    ensures var count := Extended(Canon(LITLEN, lens, str), str);
            (3 <= count <= 258 <==> SymbolAt(lens, str) < 286) && (SymbolAt(lens, str) >= 286 ==> count == 0)
  {
    hide SymbolAt, EntryOf, Shr, HasExtra;
    LengthEntries(SymbolAt(lens, str));
    LitEntry(SymbolAt(lens, str));
  }

  lemma NoExtra()
    ensures !HasExtra(INVALID_CODE) && !HasExtra(END_OF_BLOCK) && !HasExtra(0)
  {
  }

  /** The entries a distance code can lead to: at most one window back. */
  predicate DistOK(e: Huft) {
    (HasExtra(e.exop) ==> e.exop % 16 <= 13 && 1 <= e.more && e.more + Pow2(e.exop % 16) <= WSIZE + 1)
    && e.exop < 256 && (HasExtra(e.exop) || e.exop == INVALID_CODE)
  }

  lemma DistEntry(sym: int)
    requires sym < 30
    ensures DistOK(EntryOf(DIST, sym))
  {
    hide HasExtra, CPDIST, CPDEXT, CPLENS, CPLEXT;
    ListSizes();
    NoExtra();
    if sym >= 0 {
      DistanceList(sym);
      ExtraByte(CPDEXT[sym]);
    }
  }
}
