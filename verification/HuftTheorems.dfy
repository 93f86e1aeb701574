// What the finished tables mean for the symbols of the alphabet.
module HuftTheorems {
  import opened Words
  import opened Canonical
  import opened HuffmanTables
  import opened WideTables
  import opened TableBuilder

  /** A string that starts with a symbol's code is decoded to the position of
      that symbol. */
  lemma SymbolPosition(cs: CodeSet, b: seq<nat>, sym: nat, str: nat)
    requires ValidLengths(b) && ValidSet(cs) && Describes(cs, b)
    requires sym < |b| && StartsWith(b, sym, str)
    ensures LenOf(cs.c, str) == b[sym] && CodeAt(cs.c, b[sym], str)
    ensures 0 <= Position(cs.c, str) < |b| && cs.v[Position(cs.c, str)] == sym
  {
    hide Rev, LenFrom;
    var k := b[sym];
    RankBelow(b, sym);
    assert k <= cs.g;
    BeyondSame(cs.c, Counts(b), cs.g, k - 1);
    OffsetSame(cs.c, Counts(b), cs.g, k);
    LenIs(cs.c, k, str);
    OffsetBound(b, k);
    var r := Count(b[..sym], k);
    assert b[..|b|] == b;
    assert PlacedAt(b, cs.v, k, r);
    RankInjective(b, sym, cs.v[Offset(cs.c, k) + r]);
  }

  /** A code that belongs to no symbol is one of the dummies, which come after
      all symbols. */
  lemma NoSymbolPosition(cs: CodeSet, b: seq<nat>, str: nat)
    requires ValidLengths(b) && ValidSet(cs) && Describes(cs, b)
    requires forall sym :: 0 <= sym < |b| ==> !StartsWith(b, sym, str)
    ensures Position(cs.c, str) >= |b| - Count(b, 0)
  {
    hide Rev, LenFrom, LenOf;
    var k := LenOf(cs.c, str);
    LenFinds(cs.c, cs.g, str);
    BeyondSame(cs.c, Counts(b), cs.g, k - 1);
    OffsetSame(cs.c, Counts(b), cs.g, k);
    var r := Rev(k, str) - First(cs.c, k);
    if r < Count(b, k) {
      SymbolAtRank(cs, b, k, r, str);
    }
    assert k == cs.g;
    LastOffset(b, k);
  }

  lemma SymbolAtRank(cs: CodeSet, b: seq<nat>, k: nat, r: nat, str: nat)
    requires ValidLengths(b) && ValidSet(cs) && Describes(cs, b)
    requires 0 < k <= BMAX && r < Count(b, k) && Rev(k, str) == First(Counts(b), k) + r
    ensures exists sym :: 0 <= sym < |b| && StartsWith(b, sym, str)
  {
    hide Rev, First, Offset, Count;
    assert b[..|b|] == b;
    assert PlacedAt(b, cs.v, k, r);
    assert StartsWith(b, cs.v[Offset(Counts(b), k) + r], str);
  }

  lemma LastOffset(b: seq<nat>, g: nat)
    requires ValidLengths(b) && 0 < g <= BMAX && forall k :: g < k <= BMAX ==> Count(b, k) == 0
    ensures Offset(Counts(b), g) + Count(b, g) == |b| - Count(b, 0)
  {
    OffsetTotal(b);
    OffsetFlat(Counts(b), g, BMAX + 1);
  }

  lemma {:induction false} OffsetFlat(c: seq<nat>, g: nat, k: nat)
    requires 0 < g < k <= |c| && forall j :: g < j < |c| ==> c[j] == 0
    ensures Offset(c, k) == Offset(c, g) + c[g]
  {
    if g + 1 < k { OffsetFlat(c, g, k - 1); }
  }

  /** In a complete code every bit string starts with the code of exactly one
      symbol. */
  lemma SomeSymbol(b: seq<nat>, cs: CodeSet, str: nat) returns (sym: nat)
    requires ValidLengths(b) && ValidSet(cs) && Describes(cs, b) && cs.c == Counts(b)
    ensures sym < |b| && StartsWith(b, sym, str)
    ensures forall s :: 0 <= s < |b| && StartsWith(b, s, str) ==> s == sym
  {
    hide Rev, LenFrom, LenOf;
    var k := LenOf(cs.c, str);
    LenFinds(cs.c, cs.g, str);
    var r := Rev(k, str) - First(cs.c, k);
    assert b[..|b|] == b;
    assert PlacedAt(b, cs.v, k, r);
    sym := cs.v[Offset(cs.c, k) + r];
    forall s | 0 <= s < |b| && StartsWith(b, s, str) ensures s == sym {
      SymbolPosition(cs, b, s, str);
      SymbolPosition(cs, b, sym, str);
    }
  }

  // ---------------------------------------------------------- main theorems

  /** Walking the tables on a string that starts with the code of `sym` uses
      exactly the bits of that code and ends at the entry of `sym`. */
  lemma TablesDecodeSymbol(b: seq<nat>, al: Alphabet, cs: CodeSet, tables: seq<seq<Huft>>, places: seq<Place>,
                           junk: (nat, nat) -> Huft, sym: nat, str: nat)
    requires ValidLengths(b) && ValidAlphabet(al) && Built(cs, b, al, tables, places, junk) && !WideJump(cs)
    requires sym < |b| && StartsWith(b, sym, str)
    ensures var f := Walk(tables, 0, cs.l, str);
            f.used == b[sym] && f.entry.exop == SymbolExop(al, sym) && f.entry.more == SymbolBase(al, sym)
  {
    hide Pow2, Rev, Low, Shr, LenFrom, LenOf, Position, Beyond, First, Offset, Walk;
    NarrowIffNoJump(cs, tables, places);
    StartOfWalk(cs, tables, places, str);
    SymbolPosition(cs, b, sym, str);
  }

  lemma StartOfWalk(cs: CodeSet, tables: seq<seq<Huft>>, places: seq<Place>, str: nat)
    requires ValidSet(cs) && ValidAlphabet(cs.al) && AllFilled(cs, tables, places) && Narrow(cs, places)
    ensures DecodesTo(cs, str, Walk(tables, 0, cs.l, str))
  {
    hide Walk, Pow2, Rev, LenFrom, LenOf, Position, Filled;
    assert Low(0, str) == 0 && Shr(0, str) == str;
    WalkFrom(cs, tables, places, 0, str);
    assert places[0] == Place(0, 0, cs.l, cs.l);
  }

  /** Completed codes that belong to no symbol decode to the invalid entry, as
      long as every length is nonzero. */
  lemma TablesRejectUnused(b: seq<nat>, al: Alphabet, cs: CodeSet, tables: seq<seq<Huft>>, places: seq<Place>,
                           junk: (nat, nat) -> Huft, str: nat)
    requires ValidLengths(b) && ValidAlphabet(al) && Built(cs, b, al, tables, places, junk) && !WideJump(cs)
    requires Count(b, 0) == 0 && forall sym :: 0 <= sym < |b| ==> !StartsWith(b, sym, str)
    ensures Walk(tables, 0, cs.l, str).entry.exop == INVALID_CODE
  {
    hide Pow2, Rev, Low, Shr, LenFrom, LenOf, Position, Beyond, First, Offset, Walk;
    NarrowIffNoJump(cs, tables, places);
    StartOfWalk(cs, tables, places, str);
    NoSymbolPosition(cs, b, str);
  }

  /** For a complete set of lengths the tables and the canonical code agree on
      every bit string. */
  lemma TablesAreCanonical(b: seq<nat>, al: Alphabet, cs: CodeSet, tables: seq<seq<Huft>>, places: seq<Place>,
                           junk: (nat, nat) -> Huft, str: nat)
    requires ValidLengths(b) && ValidAlphabet(al) && Built(cs, b, al, tables, places, junk)
    requires Kraft(b) == Pow2(BMAX) && cs.c == Counts(b) && !WideJump(cs)
    ensures exists sym :: 0 <= sym < |b| && StartsWith(b, sym, str)
              && var f := Walk(tables, 0, cs.l, str);
                 f.used == b[sym] && f.entry.exop == SymbolExop(al, sym) && f.entry.more == SymbolBase(al, sym)
  {
    hide Pow2, Rev, Low, Shr, LenFrom, LenOf, Position, Beyond, First, Offset, Walk;
    var sym := SomeSymbol(b, cs, str);
    TablesDecodeSymbol(b, al, cs, tables, places, junk, sym, str);
  }

  /** Without a jump the tables decode every string to its canonical code,
      whatever freshly allocated memory held; with one they do not, if it held
      nothing but invalid entries. */
  lemma AgreementIffNoJump(b: seq<nat>, al: Alphabet, cs: CodeSet, tables: seq<seq<Huft>>, places: seq<Place>,
                           junk: (nat, nat) -> Huft)
    requires ValidLengths(b) && ValidAlphabet(al) && Built(cs, b, al, tables, places, junk)
    ensures !WideJump(cs) ==> forall str: nat :: DecodesTo(cs, str, Walk(tables, 0, cs.l, str))
    ensures WideJump(cs) && (forall t: nat, y: nat :: junk(t, y) == Huft(INVALID_CODE, 0, 0)) ==>
              exists str: nat :: !DecodesTo(cs, str, Walk(tables, 0, cs.l, str))
  {
    hide Pow2, Rev, Low, Shr, LenFrom, LenOf, Position, Beyond, First, Offset, Walk, Filled;
    NarrowIffNoJump(cs, tables, places);
    if WideJump(cs) {
      if forall t: nat, y: nat :: junk(t, y) == Huft(INVALID_CODE, 0, 0) {
        var str := StrayWalk(cs, tables, places);
      }
    } else {
      forall str: nat ensures DecodesTo(cs, str, Walk(tables, 0, cs.l, str)) {
        StartOfWalk(cs, tables, places, str);
      }
    }
  }

  /** At most 2^(l+1) - 1 symbols, or no code longer than two tables: the sizes
      used for literals (l = 9), distances (l = 6, 30 codes) and code lengths
      (l = 7) all qualify. */
  lemma CallersAreSafe(b: seq<nat>, cs: CodeSet)
    requires ValidLengths(b) && ValidSet(cs) && Describes(cs, b)
    requires cs.g <= 2 * cs.l || (cs.c == Counts(b) && |b| < Pow2(cs.l + 1))
    ensures !WideJump(cs)
  {
    if cs.g > 2 * cs.l {
      OffsetTotal(b);
      CodesAreOffset(cs.c, 1);
    }
    NoJump(cs);
  }

  lemma {:induction false} CodesAreOffset(c: seq<nat>, k: nat)
    requires 0 < k <= |c|
    ensures Offset(c, k) + CodesFrom(c, k) == Offset(c, |c|)
    decreases |c| - k
  {
    if k < |c| { CodesAreOffset(c, k + 1); }
  }

  /** One code of one bit and four of three bits, looked up one bit at a time:
      the second table gets two bits, and half of it is never filled. */
  lemma JumpExample(cs: CodeSet)
    requires cs.c == [0, 1, 0, 4, 0, 0, 0, 0, 0, 0, 0, 0, 0, 0, 0, 0] && cs.g == 3 && cs.l == 1
    ensures Complete(cs.c, cs.g) && WideJump(cs)
  {
    var c := cs.c;
    assert Beyond(c, 1) == 2 * Beyond(c, 0) + c[1] == 1;
    assert Beyond(c, 2) == 2 * Beyond(c, 1) + c[2] == 2;
    assert Beyond(c, 3) == 2 * Beyond(c, 2) + c[3] == 8;
    assert Pow2(1) == 2 && Pow2(2) == 4 && Pow2(3) == 8;
    assert Rev(1, 1) == 1 && Rev(2, 1) == 2;
    assert LenFrom(c, 1, 1) == LenFrom(c, 2, 1) == LenFrom(c, 3, 1);
    assert JumpAt(cs, 1, 1);
  }
}
