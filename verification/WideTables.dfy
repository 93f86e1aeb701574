// When the tables decode the canonical code, and when they do not: a table
// that was allocated wider than `l` bits has slots no code is ever entered in.
module WideTables {
  import opened Words
  import opened Canonical
  import opened HuffmanTables

  /** Some prefix of `h` full tables is followed by zero bits that make up a
      code more than one table longer. */
  ghost predicate JumpAt(cs: CodeSet, h: nat, str: nat) {
    0 < h && str < Pow2(h * cs.l) && LenOf(cs.c, str) > (h + 1) * cs.l
  }

  ghost predicate WideJump(cs: CodeSet) {
    exists h: nat, str: nat :: JumpAt(cs, h, str)
  }

  // ------------------------------------------------ wide tables and jumps

  /** Following a string whose code is longer than `h` full tables leads to a
      table at level `h`. */
  lemma {:induction false} TableAtLevel(cs: CodeSet, tables: seq<seq<Huft>>, places: seq<Place>, h: nat, str: nat)
      returns (t: nat)
    requires ValidSet(cs) && AllFilled(cs, tables, places)
    requires LenOf(cs.c, str) > h * cs.l
    ensures t < |places| && places[t].w == h * cs.l && places[t].pre == Low(h * cs.l, str)
  {
    hide Pow2, Rev, Shr, LenFrom, LenOf, Beyond, First, Offset, Position;
    if h == 0 {
      t := 0;
    } else {
      assert h * cs.l == (h - 1) * cs.l + cs.l;
      var p := TableAtLevel(cs, tables, places, h - 1, str);
      SlotIsOK(cs, tables, places, p, str);
      var m := places[p];
      PrefixDecides(cs, m.w + m.jb, str);
      var e := tables[p][Low(m.jb, Shr(m.w, str))];
      assert LinkOK(cs, places, p, m, Low(m.w + m.jb, str), e);
      t := e.more;
    }
  }

  /** Tables wider than `l` bits exist exactly for code sets with a jump. */
  lemma NarrowIffNoJump(cs: CodeSet, tables: seq<seq<Huft>>, places: seq<Place>)
    requires ValidSet(cs) && AllFilled(cs, tables, places)
    requires WidthsExplained(cs, places) && AtLevels(cs, places)
    ensures Narrow(cs, places) <==> !WideJump(cs)
  {
    hide Pow2, Rev, Low, Shr, LenFrom, LenOf, Beyond, First, Offset;
    if WideJump(cs) {
      var h: nat, str: nat :| JumpAt(cs, h, str);
      assert (h + 1) * cs.l == h * cs.l + cs.l;
      var t := TableAtLevel(cs, tables, places, h, str);
      LowSmall(h * cs.l, str);
    }
    if !Narrow(cs, places) {
      var t :| 0 <= t < |places| && places[t].width > cs.l;
      assert AtLevel(cs, places[t]) && PlaceOK(cs, places[t]);
      var h: nat :| places[t].w == h * cs.l;
      assert (h + 1) * cs.l == h * cs.l + cs.l;
      if h == 0 { RootPrefix(cs, places, t); }
      assert JumpAt(cs, h, places[t].pre);
    }
  }

  /** No code fits a table at the root that the first table does not hold. */
  lemma RootPrefix(cs: CodeSet, places: seq<Place>, t: nat)
    requires |places| > 0 && places[0] == Place(0, 0, cs.l, cs.l) && WidthsExplained(cs, places)
    requires t < |places| && places[t].w == 0 && PlaceOK(cs, places[t])
    ensures places[t].width <= cs.l
  {
    assert places[t].pre == 0;
  }

  // ------------------------------------------------------ when none occurs

  /** Codes of `k` bits or more. */
  function CodesFrom(c: seq<nat>, k: nat): nat
    decreases |c| - k
  {
    if k >= |c| then 0 else c[k] + CodesFrom(c, k + 1)
  }

  /** Filling the remaining code space takes at least one code per pattern. */
  lemma {:induction false} CodesFillRoom(cs: CodeSet, k: nat)
    requires ValidSet(cs) && 0 < k <= cs.g
    ensures Pow2(k) - First(cs.c, k) <= CodesFrom(cs.c, k)
    decreases cs.g - k
  {
    if k < cs.g {
      CodesFillRoom(cs, k + 1);
    }
  }

  lemma {:induction false} CodesFromMono(c: seq<nat>, j: nat, k: nat)
    requires j <= k
    ensures CodesFrom(c, k) <= CodesFrom(c, j)
    decreases k - j
  {
    if j < k && j < |c| { CodesFromMono(c, j + 1, k); }
  }

  /** Too few codes to fill a table of more than `l` bits, or no code longer
      than two full tables: no jump. */
  lemma NoJump(cs: CodeSet)
    requires ValidSet(cs)
    requires cs.g <= 2 * cs.l || CodesFrom(cs.c, 1) < Pow2(cs.l + 1)
    ensures !WideJump(cs)
  {
    if WideJump(cs) {
      var h: nat, str: nat :| JumpAt(cs, h, str);
      var w, k := h * cs.l, LenOf(cs.c, str);
      LenFinds(cs.c, cs.g, str);
      assert (h + 1) * cs.l == w + cs.l;
      MulMono(1, h, cs.l);
      JumpNeedsCodes(cs, w, k, str);
      CodesFillRoom(cs, k);
      CodesFromMono(cs.c, 1, k);
    }
  }

  lemma JumpNeedsCodes(cs: CodeSet, w: nat, k: nat, str: nat)
    requires ValidSet(cs) && CodeAt(cs.c, k, str) && str < Pow2(w) && k > w + cs.l
    ensures Pow2(k) - First(cs.c, k) >= Pow2(cs.l + 1)
  {
    hide Rev, Beyond, First, Pow2;
    PaddedHead(w, k, str);
    MulSucc(Rev(w, str), Pow2(k - w));
    MulMono(Rev(w, str) + 1, Pow2(w), Pow2(k - w));
    Pow2Add(w, k - w);
    Pow2Mono(cs.l + 1, k - w);
  }

  // --------------------------------------------------- what goes wrong then

  /** The string that leads past the filled part of a wide table: the jump's
      prefix followed by `l` zero bits and a one. */
  function StrayBits(cs: CodeSet, h: nat, str: nat): nat {
    str + Pow2((h + 1) * cs.l)
  }

  lemma StrayFacts(cs: CodeSet, h: nat, str: nat)
    requires ValidSet(cs) && JumpAt(cs, h, str)
    ensures var bits := StrayBits(cs, h, str);
            Low(h * cs.l, bits) == str && Shr(h * cs.l, bits) == Pow2(cs.l)
            && Low((h + 1) * cs.l, bits) == str && LenOf(cs.c, bits) > (h + 1) * cs.l
  {
    hide Pow2, Low, Shr, LenFrom, LenOf, Beyond, First, Offset, Rev;
    var w, bits := h * cs.l, StrayBits(cs, h, str);
    assert (h + 1) * cs.l == w + cs.l;
    Pow2Add(w, cs.l);
    Recombine(w, Pow2(cs.l), str);
    assert bits == Pow2(cs.l) * Pow2(w) + str;
    Pow2Mono(w, w + cs.l);
    assert 1 * Pow2(w + cs.l) == Pow2(w + cs.l);
    Recombine(w + cs.l, 1, str);
    PrefixDecides(cs, w + cs.l, bits);
  }

  /** The jump with the fewest tables before it. */
  lemma {:induction false} FirstJump(cs: CodeSet, h: nat, str: nat) returns (h': nat, str': nat)
    requires JumpAt(cs, h, str)
    ensures JumpAt(cs, h', str') && forall j: nat, s: nat :: j < h' ==> !JumpAt(cs, j, s)
  {
    if j: nat, s: nat :| j < h && JumpAt(cs, j, s) {
      h', str' := FirstJump(cs, j, s);
    } else {
      h', str' := h, str;
    }
  }

  /** Walking towards the wide table and into its unfilled part. */
  lemma {:induction false} WalkStrays(cs: CodeSet, tables: seq<seq<Huft>>, places: seq<Place>, t: nat, j: nat, h: nat,
                                      str: nat)
    requires ValidSet(cs) && ValidAlphabet(cs.al) && AllFilled(cs, tables, places) && WidthsExplained(cs, places)
    requires forall t', y :: 0 <= t' < |tables| && Pow2(places[t'].jb) <= y < |tables[t']|
               ==> tables[t'][y] == Huft(INVALID_CODE, 0, 0)
    requires JumpAt(cs, h, str) && forall j: nat, s: nat :: j < h ==> !JumpAt(cs, j, s)
    requires j <= h && t < |places| && places[t].w == j * cs.l
    requires places[t].pre == Low(j * cs.l, StrayBits(cs, h, str)) && (j == 0 ==> t == 0)
    ensures places[t].w + Walk(tables, t, places[t].width, Shr(places[t].w, StrayBits(cs, h, str))).used == h * cs.l
    decreases h - j
  {
    hide Pow2, Rev, Low, Shr, LenFrom, LenOf, Beyond, First, Offset, Position, Filled, StrayBits, PlaceOK;
    var bits, m := StrayBits(cs, h, str), places[t];
    StrayFacts(cs, h, str);
    if j == h {
      assert (h + 1) * cs.l == h * cs.l + cs.l;
      Pow2Mono(cs.l + 1, m.width);
      PastFilled(cs.l, m.width);
      assert PlaceOK(cs, m);
      NotNarrow(cs, m);
    } else {
      assert (h + 1) * cs.l == h * cs.l + cs.l && (j + 1) * cs.l == m.w + cs.l;
      MulMono(j + 1, h, cs.l);
      NarrowBefore(cs, places, t, j, h, str);
      var e := LinkStep(cs, tables, places, t, bits);
      ShrShr(m.w, cs.l, bits);
      WalkStrays(cs, tables, places, e.more, j + 1, h, str);
    }
  }

  lemma NotNarrow(cs: CodeSet, m: Place)
    requires PlaceOK(cs, m) && m.width > cs.l
    ensures m.jb == cs.l
  {
  }

  /** A narrow table sends every code that outgrows it on to a subtable. */
  lemma LinkStep(cs: CodeSet, tables: seq<seq<Huft>>, places: seq<Place>, t: nat, bits: nat) returns (e: Huft)
    requires ValidSet(cs) && ValidAlphabet(cs.al) && AllFilled(cs, tables, places)
    requires t < |places| && places[t].pre == Low(places[t].w, bits)
    requires places[t].jb == places[t].width && LenOf(cs.c, bits) > places[t].w + cs.l
    ensures var m := places[t];
            var x := Low(m.width, Shr(m.w, bits));
            x < |tables[t]| && e == tables[t][x] && IsLink(e) && e.bits == cs.l
            && t < e.more < |places| && places[e.more].width == e.exop
            && places[e.more].w == m.w + cs.l && places[e.more].pre == Low(m.w + cs.l, bits)
  {
    hide Pow2, Rev, Low, Shr, LenFrom, LenOf, Beyond, First, Offset, Position, Filled;
    var m := places[t];
    SlotIsOK(cs, tables, places, t, bits);
    e := tables[t][Low(m.jb, Shr(m.w, bits))];
    SlotDecides(cs, places, t, bits, e);
    assert m.w + m.jb <= m.w + cs.l by { assert PlaceOK(cs, m); }
  }

  lemma PastFilled(l: nat, width: nat)
    requires l < width
    ensures Low(width, Pow2(l)) == Pow2(l) < Pow2(width)
  {
    Pow2Mono(l + 1, width);
    LowSmall(width, Pow2(l));
  }

  lemma NarrowBefore(cs: CodeSet, places: seq<Place>, t: nat, j: nat, h: nat, str: nat)
    requires ValidSet(cs) && WidthsExplained(cs, places) && |places| > 0 && places[0] == Place(0, 0, cs.l, cs.l)
    requires forall j: nat, s: nat :: j < h ==> !JumpAt(cs, j, s)
    requires j < h && t < |places| && PlaceOK(cs, places[t]) && places[t].w == j * cs.l && (j == 0 ==> t == 0)
    ensures places[t].width <= cs.l && places[t].jb == places[t].width
  {
    var pre := places[t].pre;
    assert (j + 1) * cs.l == places[t].w + cs.l;
    assert !JumpAt(cs, j, pre);
  }

  /** The tables decode the canonical code, whatever the allocated memory held
      before, if and only if the code set has no wide jump. */
  lemma StrayWalk(cs: CodeSet, tables: seq<seq<Huft>>, places: seq<Place>) returns (bits: nat)
    requires ValidSet(cs) && ValidAlphabet(cs.al) && AllFilled(cs, tables, places) && WidthsExplained(cs, places)
    requires forall t', y :: 0 <= t' < |tables| && Pow2(places[t'].jb) <= y < |tables[t']|
               ==> tables[t'][y] == Huft(INVALID_CODE, 0, 0)
    requires WideJump(cs)
    ensures !DecodesTo(cs, bits, Walk(tables, 0, cs.l, bits))
  {
    hide Pow2, Rev, Low, Shr, LenFrom, LenOf, Beyond, First, Offset, Position, Filled;
    var h0: nat, s0: nat :| JumpAt(cs, h0, s0);
    var h, str := FirstJump(cs, h0, s0);
    bits := StrayBits(cs, h, str);
    StrayFacts(cs, h, str);
    assert Low(0, bits) == 0 && Shr(0, bits) == bits by { ZeroShift(bits); }
    WalkStrays(cs, tables, places, 0, 0, h, str);
    MulMono(h, h + 1, cs.l);
  }

  lemma ZeroShift(bits: nat)
    ensures Low(0, bits) == 0 && Shr(0, bits) == bits
  {
  }
}
