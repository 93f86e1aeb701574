// The multi-level lookup tables, and what it means for them to agree with
// the canonical code.
module HuffmanTables {
  import opened Words
  import opened Canonical

  /** One table slot: `exop` extra bits or operation, `bits` bits that a lookup uses
      up, and a word holding either a base value or the table to go to. */
  datatype Huft = Huft(exop: nat, bits: nat, more: nat)

  /** How symbols become entries: values below `simple` stand for themselves,
      the others are looked up in the base and extra-bits lists. */
  datatype Alphabet = Alphabet(simple: nat, bases: seq<nat>, extras: seq<nat>)

  const INVALID_CODE: nat := 192   // 128 + 64
  const END_OF_BLOCK: nat := 96    // 32 + 64

  function At(list: seq<nat>, i: int): nat {
    if 0 <= i < |list| then list[i] else 0
  }

  /** The operation byte of a symbol; the sum is stored in one byte. */
  function SymbolExop(al: Alphabet, sym: nat): nat {
    if sym < al.simple then (if sym < 256 then 0 else END_OF_BLOCK)
    else (At(al.extras, sym - al.simple) + 16 + 64) % 256
  }

  function SymbolBase(al: Alphabet, sym: nat): nat {
    if sym < al.simple then sym else At(al.bases, sym - al.simple)
  }

  /** A code set ready for table building: counts per length (completed with
      dummy codes), longest length, bits per table, the symbols in order of
      code length, and how many symbols there are. */
  datatype CodeSet = CodeSet(c: seq<nat>, g: nat, l: nat, v: seq<nat>, n: nat, al: Alphabet)

  predicate ValidSet(cs: CodeSet) {
    |cs.c| == BMAX + 1 && Complete(cs.c, cs.g) && cs.c[cs.g] > 0 && 0 < cs.l <= cs.g
    && cs.n <= N_MAX && |cs.v| == N_MAX
  }

  /** Entry for the code at position `pos` of the ordered list. */
  predicate LeafOK(cs: CodeSet, pos: int, bits: nat, e: Huft) {
    e.bits == bits
    && (pos >= cs.n ==> e.exop == INVALID_CODE)
    && (0 <= pos < cs.n && pos < |cs.v| ==>
          e.exop == SymbolExop(cs.al, cs.v[pos]) && e.more == SymbolBase(cs.al, cs.v[pos]))
  }

  /** Where a table sits: bits already consumed, their values, how many more
      bits are resolved in it, and the index width it was allocated with. */
  datatype Place = Place(w: nat, pre: nat, jb: nat, width: nat)

  /** The bits that lead to slot `x` of a table, first bit lowest. */
  function SlotBits(m: Place, x: nat): nat {
    m.pre + x * Pow2(m.w)
  }

  /** Slot entry `e`, reached by the bits `str`, is what the code demands. */
  predicate SlotOK(cs: CodeSet, places: seq<Place>, t: nat, m: Place, str: nat, e: Huft) {
    var k := LenOf(cs.c, str);
    if k <= m.w + m.jb then
      m.w < k && LeafOK(cs, Position(cs.c, str), k - m.w, e)
    else
      LinkOK(cs, places, t, m, str, e)
  }

  predicate LinkOK(cs: CodeSet, places: seq<Place>, t: nat, m: Place, str: nat, e: Huft) {
    m.jb == cs.l && e.bits == cs.l && t < e.more < |places|
    && places[e.more].w == m.w + cs.l && places[e.more].pre == str && places[e.more].width == e.exop
  }

  /** Tables resolve at most `l` bits, even when they were allocated wider. */
  predicate PlaceOK(cs: CodeSet, m: Place) {
    m.jb == (if m.width > cs.l then cs.l else m.width)
    && 0 < m.width && m.w + m.width <= cs.g && m.pre < Pow2(m.w)
    && (m.jb == cs.l || (Rev(m.w, m.pre) + 1) * Pow2(m.jb) <= Beyond(cs.c, m.w + m.jb))
  }

  ghost predicate Shape(cs: CodeSet, tables: seq<seq<Huft>>, places: seq<Place>) {
    |tables| == |places|
    && (forall t :: 0 <= t < |places| ==> PlaceOK(cs, places[t]))
    && (forall t :: 0 <= t < |places| ==> |tables[t]| == Pow2(places[t].width))
    && (|places| > 0 ==> places[0] == Place(0, 0, cs.l, cs.l))
  }

  /** Every slot whose bits come before `limit` in code order is final. */
  ghost predicate Filled(cs: CodeSet, tables: seq<seq<Huft>>, places: seq<Place>, limit: nat)
    requires Shape(cs, tables, places)
  {
    forall t, x ::
      0 <= t < |places| && 0 <= x < Pow2(places[t].jb) && x < |tables[t]|
      && Rev(cs.g, SlotBits(places[t], x)) < limit
      ==> SlotOK(cs, places, t, places[t], SlotBits(places[t], x), tables[t][x])
  }

  // ------------------------------------------------------ slots and intervals

  lemma SlotSmall(cs: CodeSet, m: Place, x: nat)
    requires PlaceOK(cs, m) && x < Pow2(m.jb)
    ensures SlotBits(m, x) < Pow2(m.w + m.jb) <= Pow2(cs.g)
    ensures Low(m.w, SlotBits(m, x)) == m.pre
    ensures Shr(m.w, SlotBits(m, x)) == x
  {
    Recombine(m.w, x, m.pre);
    MulMonoStrict(x, Pow2(m.jb), Pow2(m.w));
    Pow2Add(m.w, m.jb);
    Pow2Mono(m.w + m.jb, cs.g);
  }

  /** The slot of table `m` that a bit string beginning with its prefix uses. */
  lemma SlotOf(m: Place, str: nat)
    requires Low(m.w, str) == m.pre
    ensures SlotBits(m, Low(m.jb, Shr(m.w, str))) == Low(m.w + m.jb, str)
  {
    LowSplit(m.w, m.jb, str);
  }

  /** Reversal orders strings by their first bits. */
  lemma RevHead(a: nat, g: nat, str: nat)
    requires a <= g
    ensures Rev(a, str) * Pow2(g - a) <= Rev(g, str) < (Rev(a, str) + 1) * Pow2(g - a)
  {
    RevSplit(a, g - a, str);
    assert (Rev(a, str) + 1) * Pow2(g - a) == Rev(a, str) * Pow2(g - a) + Pow2(g - a);
  }

  /** Equal leading value means equal leading bits. */
  lemma SameHead(a: nat, g: nat, str: nat, top: nat)
    requires a <= g
    requires top * Pow2(g - a) <= Rev(g, str) < (top + 1) * Pow2(g - a)
    ensures Rev(a, str) == top
  {
    RevHead(a, g, str);
    var q := Rev(a, str);
    if q < top { MulMono(q + 1, top, Pow2(g - a)); }
    if top < q { MulMono(top + 1, q, Pow2(g - a)); }
  }

  /** Zero-padded strings sit at the start of their interval. */
  lemma PaddedHead(a: nat, g: nat, str: nat)
    requires a <= g && str < Pow2(a)
    ensures Rev(g, str) == Rev(a, str) * Pow2(g - a)
  {
    RevPad(a, g, str);
  }

  // --------------------------------------------------------- choosing a width

  /** The current code continues a table: it fits the table's own width, or
      the table is a full-width one that may have subtables. */
  lemma FitsOrFull(cs: CodeSet, m: Place, k: nat, i: nat)
    requires ValidSet(cs) && PlaceOK(cs, m) && CodeAt(cs.c, k, i) && Low(m.w, i) == m.pre
    ensures k <= m.w + m.jb || m.jb == cs.l
  {
    hide Pow2, Rev, Low, Shr, LenFrom, Beyond, First, Offset;
    var d := m.w + m.jb;
    if k > d && m.jb != cs.l {
      PrefixFree(cs.c, k, d, i);
      RevLow(m.w, i);
      RevHead(m.w, d, i);
    }
  }

  // ------------------------------------------------------------- walking

  /** What a walk through the tables ends with. */
  datatype Found = Found(entry: Huft, used: nat)

  /** The decoder's loop: mask, look up, dump the bits, follow `next` while the
      entry names another table. */
  function Walk(tables: seq<seq<Huft>>, t: nat, need: nat, bits: nat): Found
    decreases |tables| - t
  {
    if t >= |tables| || Low(need, bits) >= |tables[t]| then Found(Huft(INVALID_CODE, 0, 0), 0)
    else
      var e := tables[t][Low(need, bits)];
      if IsLink(e) && t < e.more then
        var rest := Walk(tables, e.more, e.exop, Shr(e.bits, bits));
        Found(rest.entry, e.bits + rest.used)
      else
        Found(e, e.bits)
  }

  /** How many bits the walk looks at, counting those of the last lookup that
      its entry does not use. */
  function Lookahead(tables: seq<seq<Huft>>, t: nat, need: nat, bits: nat): (r: nat)
    ensures r >= need
    decreases |tables| - t
  {
    if t >= |tables| || Low(need, bits) >= |tables[t]| then need
    else
      var e := tables[t][Low(need, bits)];
      if IsLink(e) && t < e.more then
        var deep := e.bits + Lookahead(tables, e.more, e.exop, Shr(e.bits, bits));
        if deep > need then deep else need
      else need
  }

  /** `(e & 64) == 0 && (e & 16) == 0 && e != 0`: go to the next table. */
  predicate IsLink(e: Huft) {
    e.exop != 0 && (e.exop / 16) % 2 == 0 && (e.exop / 64) % 2 == 0
  }

  /** Extra-bits values the tables of RFC 1951 use; 192 marks no code. */
  predicate ValidAlphabet(al: Alphabet) {
    forall i :: 0 <= i < |al.extras| ==> al.extras[i] <= 15 || al.extras[i] == INVALID_CODE
  }

  lemma LeafIsNoLink(cs: CodeSet, pos: int, bits: nat, e: Huft)
    requires ValidAlphabet(cs.al) && 0 <= pos && |cs.v| == N_MAX && cs.n <= N_MAX
    requires LeafOK(cs, pos, bits, e)
    ensures !IsLink(e)
  {
  }

  /** Every slot that codes can reach is final. */
  ghost predicate AllFilled(cs: CodeSet, tables: seq<seq<Huft>>, places: seq<Place>) {
    Shape(cs, tables, places) && |places| > 0 && Filled(cs, tables, places, Pow2(cs.g))
  }

  /** A table wider than `l` bits is made exactly when the first code below its
      prefix is more than `l` bits longer than the prefix. */
  ghost predicate WidthsExplained(cs: CodeSet, places: seq<Place>) {
    forall t :: 0 <= t < |places| ==> (places[t].width > cs.l <==> LenOf(cs.c, places[t].pre) > places[t].w + cs.l)
  }

  /** Every table starts after a whole number of full tables. */
  ghost predicate AtLevels(cs: CodeSet, places: seq<Place>) {
    forall t :: 0 <= t < |places| ==> AtLevel(cs, places[t])
  }

  ghost predicate AtLevel(cs: CodeSet, m: Place) {
    exists h: nat :: m.w == h * cs.l
  }

  /** No table is wider than `l` bits. */
  predicate Narrow(cs: CodeSet, places: seq<Place>) {
    forall t :: 0 <= t < |places| ==> places[t].width <= cs.l
  }

  /** Entry and length that the canonical code assigns to a bit string. */
  ghost predicate DecodesTo(cs: CodeSet, bits: nat, f: Found) {
    CodeAt(cs.c, LenOf(cs.c, bits), bits)
    && f.used == LenOf(cs.c, bits)
    && LeafOK(cs, Position(cs.c, bits), f.entry.bits, f.entry)
  }

  /** The code of a string is decided by any prefix long enough to hold it. */
  lemma PrefixDecides(cs: CodeSet, d: nat, str: nat)
    requires ValidSet(cs)
    ensures LenOf(cs.c, str) <= d || LenOf(cs.c, Low(d, str)) <= d ==>
              LenOf(cs.c, Low(d, str)) == LenOf(cs.c, str)
              && Position(cs.c, Low(d, str)) == Position(cs.c, str)
  {
    hide Pow2, Rev, Low, Shr, LenFrom, Beyond, First, Offset;
    var here := Low(d, str);
    var k, k' := LenOf(cs.c, str), LenOf(cs.c, here);
    LenFinds(cs.c, cs.g, str);
    LenFinds(cs.c, cs.g, here);
    if k <= d {
      LowLow(k, d - k, str);
      LenLocal(cs.c, k, str, here);
      RevLow(k, here); RevLow(k, str);
    } else if k' <= d {
      LowLow(k', d - k', str);
      LenLocal(cs.c, k', here, str);
    }
  }

  lemma PositionNat(cs: CodeSet, str: nat)
    requires ValidSet(cs)
    ensures Position(cs.c, str) >= 0 && CodeAt(cs.c, LenOf(cs.c, str), str) && LenOf(cs.c, str) <= cs.g
  {
    LenFinds(cs.c, cs.g, str);
  }

  lemma SlotIsOK(cs: CodeSet, tables: seq<seq<Huft>>, places: seq<Place>, t: nat, str: nat)
    requires AllFilled(cs, tables, places)
    requires t < |places| && Low(places[t].w, str) == places[t].pre
    ensures var m := places[t];
            var x := Low(m.jb, Shr(m.w, str));
            x < |tables[t]| && SlotOK(cs, places, t, m, Low(m.w + m.jb, str), tables[t][x])
  {
    hide Pow2, Rev, Low, Shr, LenFrom, Beyond, First, Offset;
    var m := places[t];
    var x := Low(m.jb, Shr(m.w, str));
    SlotOf(m, str);
    SlotSmall(cs, m, x);
    Pow2Mono(m.w + m.jb, cs.g);
    Pow2Mono(m.jb, m.width);
  }

  /** What the slot for a string says about the string's code. */
  lemma SlotDecides(cs: CodeSet, places: seq<Place>, t: nat, str: nat, e: Huft)
    requires ValidSet(cs) && ValidAlphabet(cs.al)
    requires t < |places| && forall t' :: 0 <= t' < |places| ==> PlaceOK(cs, places[t'])
    requires SlotOK(cs, places, t, places[t], Low(places[t].w + places[t].jb, str), e)
    ensures var m := places[t];
            var k := LenOf(cs.c, str);
            CodeAt(cs.c, k, str) && 0 <= Position(cs.c, str)
            && if k <= m.w + m.jb
               then m.w < k && LeafOK(cs, Position(cs.c, str), k - m.w, e) && !IsLink(e)
               else LinkOK(cs, places, t, m, Low(m.w + m.jb, str), e) && IsLink(e)
  {
    hide Pow2, Rev, Low, LenFrom, Beyond, First, Offset, LenOf, Position, SymbolExop, SymbolBase;
    var m := places[t];
    PrefixDecides(cs, m.w + m.jb, str);
    PositionNat(cs, str);
    if LenOf(cs.c, str) <= m.w + m.jb {
      LeafIsNoLink(cs, Position(cs.c, str), LenOf(cs.c, str) - m.w, e);
    } else {
      assert PlaceOK(cs, places[e.more]);
    }
  }

  /** Walking from a table whose prefix has been consumed finds the canonical
      code of the whole string. */
  lemma {:induction false} WalkFrom(cs: CodeSet, tables: seq<seq<Huft>>, places: seq<Place>, t: nat, str: nat)
    requires ValidSet(cs) && ValidAlphabet(cs.al) && AllFilled(cs, tables, places) && Narrow(cs, places)
    requires t < |places| && Low(places[t].w, str) == places[t].pre
    ensures var f := Walk(tables, t, places[t].jb, Shr(places[t].w, str));
            DecodesTo(cs, str, Found(f.entry, places[t].w + f.used))
    decreases |tables| - t
  {
    hide Pow2, Rev, Low, Shr, LenFrom, Beyond, First, Offset;
    var m := places[t];
    var e := tables[t][Low(m.jb, Shr(m.w, str))];
    SlotIsOK(cs, tables, places, t, str);
    SlotDecides(cs, places, t, str, e);
    if IsLink(e) {
      ShrShr(m.w, cs.l, str);
      WalkFrom(cs, tables, places, e.more, str);
    }
  }

  /** A walk never looks further ahead than the longest code. */
  lemma {:induction false} LookaheadFrom(cs: CodeSet, tables: seq<seq<Huft>>, places: seq<Place>, t: nat, str: nat)
    requires ValidSet(cs) && ValidAlphabet(cs.al) && AllFilled(cs, tables, places) && Narrow(cs, places)
    requires t < |places| && Low(places[t].w, str) == places[t].pre
    ensures places[t].w + Lookahead(tables, t, places[t].width, Shr(places[t].w, str)) <= cs.g
    decreases |tables| - t
  {
    hide Pow2, Rev, Low, Shr, LenFrom, Beyond, First, Offset;
    var m := places[t];
    assert PlaceOK(cs, m);
    var e := tables[t][Low(m.jb, Shr(m.w, str))];
    SlotIsOK(cs, tables, places, t, str);
    SlotDecides(cs, places, t, str, e);
    if IsLink(e) {
      ShrShr(m.w, cs.l, str);
      LookaheadFrom(cs, tables, places, e.more, str);
    }
  }
}
