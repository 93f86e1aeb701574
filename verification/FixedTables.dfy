// The fixed Huffman codes of RFC 1951, section 3.2.6, and the tables
// inflate_trees_fixed makes for them.
module FixedTables {
  import opened ReturnCodes
  import opened Words
  import opened Canonical
  import opened HuffmanTables
  import opened WideTables
  import opened TableMemory
  import opened TableBuilder
  import opened HuftTheorems
  import opened InflateSpec
  import opened CodesState
  import opened BlocksSpec
  import opened BuiltTrees

  /** Counting in a run of equal lengths. */
  lemma {:induction false} CountRun(b: seq<nat>, lo: nat, hi: nat, len: nat, k: nat)
    requires lo <= hi <= |b| && forall i :: lo <= i < hi ==> b[i] == len
    ensures Count(b[..hi], k) == Count(b[..lo], k) + (if k == len then hi - lo else 0)
    decreases hi
  {
    if lo < hi {
      CountRun(b, lo, hi - 1, len, k);
      CountAppend(b, hi - 1, k);
    }
  }

  /** How many of the first `n` literal/length symbols have code length `k`. */
  function LitCount(n: nat, k: nat): nat {
    if k == 7 then (if n <= 256 then 0 else if n <= 280 then n - 256 else 24)
    else if k == 8 then (if n <= 144 then n else if n <= 280 then 144 else 144 + (n - 280))
    else if k == 9 then (if n <= 144 then 0 else if n <= 256 then n - 144 else 112)
    else 0
  }

  lemma LitCounts(n: nat, k: nat)
    requires n <= 288
    ensures Count(FixedLit()[..n], k) == LitCount(n, k)
  {
    var b := FixedLit();
    assert b[..0] == [];
    var m := if n < 144 then n else 144;
    CountRun(b, 0, m, 8, k);
    if n > 144 {
      m := if n < 256 then n else 256;
      CountRun(b, 144, m, 9, k);
      if n > 256 {
        m := if n < 280 then n else 280;
        CountRun(b, 256, m, 7, k);
        if n > 280 { CountRun(b, 280, n, 8, k); }
      }
    }
  }

  lemma DistCounts(n: nat, k: nat)
    requires n <= 30
    ensures Count(FixedDist()[..n], k) == if k == 5 then n else 0
  {
    assert FixedDist()[..0] == [];
    CountRun(FixedDist(), 0, n, 5, k);
  }

  lemma LitUsage()
    ensures var c := Counts(FixedLit());
            Beyond(c, 6) == 0 && First(c, 7) == 0 && Beyond(c, 7) == 24 && First(c, 8) == 48 && Beyond(c, 8) == 200
            && First(c, 9) == 400 && Beyond(c, 9) == 512
  {
    var b, c := FixedLit(), Counts(FixedLit());
    assert b[..288] == b;
    forall k | 0 <= k <= BMAX ensures c[k] == LitCount(288, k) { LitCounts(288, k); }
    NothingShorter(c, 6);
    assert Beyond(c, 7) == 2 * Beyond(c, 6) + c[7];
    assert Beyond(c, 8) == 2 * Beyond(c, 7) + c[8];
    assert Beyond(c, 9) == 2 * Beyond(c, 8) + c[9];
  }

  /** The table of literal/length codes in section 3.2.6. */
  lemma FixedCodeValues(sym: nat)
    requires sym < 288
    ensures Code(FixedLit(), sym) ==
            if sym < 144 then 0x30 + sym          // 00110000 through 10111111
            else if sym < 256 then 0x190 + sym - 144  // 110010000 through 111111111
            else if sym < 280 then sym - 256      // 0000000 through 0010111
            else 0xC0 + sym - 280                 // 11000000 through 11000111
  {
    LitUsage();
    LitCounts(sym, FixedLit()[sym]);
  }

  /** The literal/length code is complete; the distance code lacks two codes of
      five bits, which never occur. */
  lemma FixedKraft()
    ensures ValidLengths(FixedLit()) && ValidLengths(FixedDist())
    ensures !AllZero(FixedLit()) && !AllZero(FixedDist())
    ensures Kraft(FixedLit()) == Pow2(BMAX) && Kraft(FixedDist()) + 2 * Weight(5) == Pow2(BMAX)
    ensures Count(FixedLit(), 0) == 0 && Count(FixedDist(), 0) == 0
    ensures Complete(Counts(FixedLit()), 9)
  {
    var b, d := FixedLit(), FixedDist();
    assert b[0] == 8 && d[0] == 5;
    assert b[..288] == b && d[..30] == d;
    forall k | 0 <= k <= BMAX ensures Count(b, k) == LitCount(288, k) && Count(d, k) == (if k == 5 then 30 else 0) {
      LitCounts(288, k);
      DistCounts(30, k);
    }
    LitUsage();
    NothingShorter(Counts(d), 4);
    assert Beyond(Counts(d), 5) == 30;
    SmallPowers();
    assert Pow2(5) == 32 && Pow2(9) == 512;
    KraftAtMax(b, 9);
    KraftAtMax(d, 5);
  }

  // ------------------------------------------------------- memory for the tables

  /** Table entries that both fixed trees take. */
  const FIXEDH: nat := 530

  /** 76 tables of two slots for the codes of eight bits, 28 of four slots for
      those of nine. */
  lemma {:induction false} LevelSeven(cs: CodeSet, n: nat)
    requires cs.c == Counts(FixedLit()) && cs.g == 9 && cs.l == 7 && n <= 128
    ensures LevelEntries(cs, 7, n) == if n <= 24 then 0 else if n <= 100 then 3 * (n - 24) else 228 + 5 * (n - 100)
  {
    hide TableCost;
    LitUsage();
    if n > 0 {
      LevelSeven(cs, n - 1);
      if n > 24 { SubtableCost(cs, n - 1); }
    }
  }

  lemma SubtableCost(cs: CodeSet, top: nat)
    requires cs.c == Counts(FixedLit()) && cs.g == 9 && cs.l == 7 && 24 <= top < 128
    ensures TableCost(cs, top, 7) == if top < 100 then 3 else 5
  {
    SmallPowers();
    LitUsage();
    hide Pow2, FixedLit, Beyond, First;
    assert FirstBits(cs, top, 7, 1) == if top < 100 then 1 else 2;
    if top < 100 {
      assert Room(cs.c, top, 7, 1) <= 0;
    }
    assert WidthFrom(cs, top, 7, FirstBits(cs, top, 7, 1)) == if top < 100 then 1 else 2;
  }

  /** A root table of `l` bits. */
  lemma RootCost(cs: CodeSet)
    requires ValidSet(cs) && CodeAt(cs.c, cs.l, 0)
    ensures LevelEntries(cs, 0, Pow2(0)) == Pow2(cs.l) + 1
  {
    hide First, FirstBits, WidthFrom, Rev, Complete;
    FirstBitsIs(cs, 0, cs.l, 0, 1);
    RevZero(0);
    assert WidthFrom(cs, 0, 0, cs.l) == cs.l by { WidthThere(cs, 0, 0, cs.l); }
    assert LevelEntries(cs, 0, 1) == LevelEntries(cs, 0, 0) + TableCost(cs, 0, 0);
  }

  lemma WidthThere(cs: CodeSet, top: nat, w: nat, j: nat)
    requires j >= Limit(cs, w)
    ensures WidthFrom(cs, top, w, j) == j
  {
  }

  lemma LitEntries(cs: CodeSet)
    requires ValidSet(cs) && cs.c == Counts(FixedLit()) && cs.g == 9 && cs.l == 7
    ensures Entries(cs) == 497
  {
    SmallPowers();
    LitUsage();
    RevZero(7);
    hide Pow2, FixedLit, Beyond, First, LevelEntries, Rev;
    RootCost(cs);
    LevelSeven(cs, 128);
    assert EntriesFrom(cs, 7) == LevelEntries(cs, 7, Pow2(7));
  }

  lemma DistEntries(cs: CodeSet)
    requires ValidSet(cs) && cs.g == 5 && cs.l == 5 && forall k :: 0 < k < 5 ==> cs.c[k] == 0
    ensures Entries(cs) == 33
  {
    SmallPowers();
    NothingShorter(cs.c, 4);
    RevZero(5);
    hide Pow2, LevelEntries, Rev;
    assert First(cs.c, 5) == 2 * Beyond(cs.c, 4) == 0;
    RootCost(cs);
  }

  /** inflate_trees_fixed: tables for the fixed codes, 7 and 5 bits at a time.
      They take the 530 entries set aside for them. */
  method InflateTreesFixed(memory: nat, junk: (nat, nat) -> Huft) returns (ok: bool, tr: Trees, left: nat)
    ensures ok <==> memory >= FIXEDH
    ensures ok ==> TreesOK(tr, FixedCodes()) && left == memory - FIXEDH
  {
    FixedKraft();
    FixedLengths();
    hide Kraft, Pow2, Built, ValidSet, Describes, Entries, TreesOK, FixedLit, FixedDist, Count;
    var rl, tl, bl, left0, cl, pl := HuftBuild(FixedLit(), LITLEN, 7, memory, junk);
    LitPrepared(cl);
    var rd, td, bd, left1, cd, pd := HuftBuild(FixedDist(), DIST, 5, left0, junk);
    DistPrepared(cd);
    tr, left := Trees(tl, bl, td, bd), left1;
    ok := rl != Z_MEM_ERROR && rd != Z_MEM_ERROR;
    if ok {
      FixedLitTree(cl, tl, pl, junk);
      FixedDistTree(cd, td, pd, junk);
      FixedTreesOK(tr);
    }
  }

  lemma LitPrepared(cs: CodeSet)
    requires Prepared(cs, FixedLit(), LITLEN, 7) && cs.c == Counts(FixedLit())
    ensures ValidSet(cs) && cs.g == 9 && cs.l == 7 && Entries(cs) == 497
  {
    hide Entries;
    FixedLengths();
    var b := FixedLit();
    assert b[..288] == b;
    LitCounts(288, 7); LitCounts(288, 9); LitCounts(288, cs.g);
    LitEntries(cs);
  }

  lemma DistPrepared(cs: CodeSet)
    requires Prepared(cs, FixedDist(), DIST, 5)
    ensures ValidSet(cs) && cs.g == 5 && cs.l == 5 && Entries(cs) == 33
  {
    hide Entries;
    FixedLengths();
    var b := FixedDist();
    assert b[..30] == b;
    DistCounts(30, 5); DistCounts(30, cs.g);
    forall k | 0 < k < 5 ensures cs.c[k] == 0 { DistCounts(30, k); }
    DistEntries(cs);
  }

  lemma FixedTreesOK(tr: Trees)
    requires TreeOK(tr.ltree, tr.lbits, LITLEN, FixedLit()) && TreeOK(tr.dtree, tr.dbits, DIST, FixedDist())
    ensures TreesOK(tr, FixedCodes())
  {
    hide TreeOK;
    FixedKraft();
    FixedLengths();
  }

  lemma FixedLengths()
    ensures (exists i :: 0 <= i < |FixedDist()| && FixedDist()[i] > 1)
    ensures |FixedLit()| == 288 && |FixedDist()| == 30
    ensures ValidAlphabet(LITLEN) && ValidAlphabet(DIST)
  {
    assert FixedDist()[0] > 1;
    AlphabetsValid();
  }

  lemma FixedLitTree(cs: CodeSet, tables: seq<seq<Huft>>, places: seq<Place>, junk: (nat, nat) -> Huft)
    requires Built(cs, FixedLit(), LITLEN, tables, places, junk) && cs.c == Counts(FixedLit()) && cs.g == 9 && cs.l == 7
    ensures TreeOK(tables, cs.l, LITLEN, FixedLit())
  {
    hide Pow2, Rev, LenFrom, TreeOK, AllFilled, WidthsExplained, AtLevels, UntouchedIn;
    FixedKraft();
    FixedLengths();
    CallersAreSafe(FixedLit(), cs);
    BuiltTree(FixedLit(), LITLEN, cs, tables, places, junk);
  }

  lemma FixedDistTree(cs: CodeSet, tables: seq<seq<Huft>>, places: seq<Place>, junk: (nat, nat) -> Huft)
    requires Built(cs, FixedDist(), DIST, tables, places, junk) && cs.g == 5 && cs.l == 5
    ensures TreeOK(tables, cs.l, DIST, FixedDist())
  {
    hide Pow2, Rev, LenFrom, TreeOK, AllFilled, WidthsExplained, AtLevels, UntouchedIn;
    FixedKraft();
    FixedLengths();
    CallersAreSafe(FixedDist(), cs);
    BuiltTree(FixedDist(), DIST, cs, tables, places, junk);
  }
}
