// The tables that huft_build makes are fit for the decoder.
module BuiltTrees {
  import opened Words
  import opened Canonical
  import opened HuffmanTables
  import opened WideTables
  import opened TableBuilder
  import opened HuftTheorems
  import opened InflateSpec

  lemma BuiltTree(b: seq<nat>, al: Alphabet, cs: CodeSet, tables: seq<seq<Huft>>, places: seq<Place>,
                  junk: (nat, nat) -> Huft)
    requires ValidLengths(b) && ValidAlphabet(al) && Built(cs, b, al, tables, places, junk) && !WideJump(cs)
    requires (Kraft(b) == Pow2(BMAX) ==> cs.c == Counts(b)) && cs.l <= LOOKUP_BITS
    ensures TreeOK(tables, cs.l, al, b)
  {
    hide Pow2, Rev, Low, Shr, LenFrom, LenOf, Position, Beyond, First, Offset, Walk, Canon, SlotSafe, Lookahead,
         Filled, Definite, Kraft;
    NarrowIffNoJump(cs, tables, places);
    forall t, x | 0 <= t < |tables| && 0 <= x < |tables[t]| ensures SlotSafe(tables, t, tables[t][x]) {
      SafeSlot(cs, tables, places, t, x);
    }
    forall str: nat
      ensures (Definite(b, str) ==> Agrees(al, b, str, Walk(tables, 0, cs.l, str)))
              && Lookahead(tables, 0, cs.l, str) <= BMAX
    {
      if Definite(b, str) { WalkAgrees(b, al, cs, tables, places, junk, str); }
      ZeroShift(str);
      LookaheadFrom(cs, tables, places, 0, str);
    }
  }

  lemma SafeSlot(cs: CodeSet, tables: seq<seq<Huft>>, places: seq<Place>, t: nat, x: nat)
    requires ValidSet(cs) && ValidAlphabet(cs.al) && AllFilled(cs, tables, places) && Narrow(cs, places)
             && cs.l <= LOOKUP_BITS
    requires t < |tables| && x < |tables[t]|
    ensures SlotSafe(tables, t, tables[t][x])
  {
    hide Pow2, Rev, Low, Shr, LenFrom, LenOf, Position, Beyond, First, Offset;
    var m, e := places[t], tables[t][x];
    assert PlaceOK(cs, m);
    var str := SlotBits(m, x);
    SlotSmall(cs, m, x);
    assert SlotOK(cs, places, t, m, str, e);
    PositionNat(cs, str);
    if LenOf(cs.c, str) <= m.w + m.jb {
      LeafIsNoLink(cs, Position(cs.c, str), LenOf(cs.c, str) - m.w, e);
      Pow2Mono(e.bits, m.width);
    } else {
      assert PlaceOK(cs, places[e.more]);
    }
  }

  lemma WalkAgrees(b: seq<nat>, al: Alphabet, cs: CodeSet, tables: seq<seq<Huft>>, places: seq<Place>,
                   junk: (nat, nat) -> Huft, str: nat)
    requires ValidLengths(b) && ValidAlphabet(al) && Built(cs, b, al, tables, places, junk)
    requires Narrow(cs, places) && !WideJump(cs) && (Kraft(b) == Pow2(BMAX) ==> cs.c == Counts(b)) && Definite(b, str)
    ensures Agrees(al, b, str, Walk(tables, 0, cs.l, str))
  {
    hide Pow2, Rev, Low, Shr, LenFrom, LenOf, Position, Beyond, First, Offset, Walk;
    StartOfWalk(cs, tables, places, str);
    PositionNat(cs, str);
    var sym := SymbolAt(b, str);
    if sym >= 0 {
      TablesDecodeSymbol(b, al, cs, tables, places, junk, sym, str);
    } else if cs.c == Counts(b) {
      var s := SomeSymbol(b, cs, str);
    } else {
      TablesRejectUnused(b, al, cs, tables, places, junk, str);
    }
  }

  lemma AlphabetsValid()
    ensures ValidAlphabet(LITLEN) && ValidAlphabet(DIST)
  {
    forall i | 0 <= i < 31 ensures CPLEXT[i] <= 15 || CPLEXT[i] == INVALID_CODE { LengthList(i); }
    forall i | 0 <= i < 30 ensures CPDEXT[i] <= 15 { DistanceList(i); }
    ListSizes();
  }
}
