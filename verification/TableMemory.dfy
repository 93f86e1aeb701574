// How much memory the tables of a code take: a table for every prefix of full
// tables that goes on, each as wide as huft_build makes it.
module TableMemory {
  import opened Words
  import opened Canonical
  import opened HuffmanTables
  import opened WideTables

  /** The patterns of `j` bits below prefix value `top` that codes of at most
      `w + j` bits leave unused. */
  ghost function Room(c: seq<nat>, top: nat, w: nat, j: nat): int {
    (top + 1) * Pow2(j) - Beyond(c, w + j)
  }

  lemma RoomStep(c: seq<nat>, top: nat, w: nat, j: nat)
    requires w + j + 1 < |c|
    ensures Room(c, top, w, j + 1) == 2 * Room(c, top, w, j) - c[w + j + 1]
  {
    assert (top + 1) * Pow2(j + 1) == 2 * ((top + 1) * Pow2(j));
  }

  lemma RoomAtEnd(cs: CodeSet, top: nat, w: nat)
    requires ValidSet(cs) && top < Pow2(w) && w <= cs.g
    ensures Room(cs.c, top, w, cs.g - w) <= 0
  {
    MulMono(top + 1, Pow2(w), Pow2(cs.g - w));
    Pow2Add(w, cs.g - w);
  }

  // --------------------------------------------------------- the width of a table

  /** No table is wider than this unless its first code is. */
  function Limit(cs: CodeSet, w: nat): int {
    if cs.g - w > cs.l then cs.l else cs.g - w
  }

  /** From `j` bits on, the first width that the codes below the prefix fill. */
  ghost function WidthFrom(cs: CodeSet, top: nat, w: nat, j: nat): nat
    decreases Limit(cs, w) - j
  {
    if j >= Limit(cs, w) || Room(cs.c, top, w, j) <= 0 then j else WidthFrom(cs, top, w, j + 1)
  }

  /** How many bits the first code below the prefix has beyond it, if at least
      `j`: the prefix followed by zeros is a code. */
  ghost function FirstBits(cs: CodeSet, top: nat, w: nat, j: nat): nat
    decreases cs.g - (w + j)
  {
    if w + j >= cs.g || top * Pow2(j) < Beyond(cs.c, w + j) then j else FirstBits(cs, top, w, j + 1)
  }

  ghost function TableWidth(cs: CodeSet, top: nat, w: nat): nat {
    WidthFrom(cs, top, w, FirstBits(cs, top, w, 1))
  }

  /** A table has one entry more than it has slots, for the list by which it is
      freed. */
  ghost function TableCost(cs: CodeSet, top: nat, w: nat): nat {
    Pow2(TableWidth(cs, top, w)) + 1
  }

  /** The first code below a prefix tells its bits. */
  lemma {:induction false} FirstBitsIs(cs: CodeSet, w: nat, k: nat, i: nat, j: nat)
    requires CodeAt(cs.c, k, i) && i < Pow2(w) && 0 < j <= k - w && k <= cs.g
    ensures FirstBits(cs, Rev(w, i), w, j) == k - w
    decreases k - w - j
  {
    hide Pow2, Rev, Beyond, First;
    RevPad(w, w + j, i);
    if w + j < k {
      PrefixFree(cs.c, k, w + j, i);
      FirstBitsIs(cs, w, k, i, j + 1);
    }
  }

  // ------------------------------------------------------------- all tables

  /** The tables for the prefixes of `w` bits with values below `n`: those up to
      which the codes of at most `w` bits do not reach. */
  ghost function LevelEntries(cs: CodeSet, w: nat, n: nat): nat {
    if n == 0 then 0 else LevelEntries(cs, w, n - 1) + (if Beyond(cs.c, w) <= n - 1 then TableCost(cs, n - 1, w) else 0)
  }

  /** The tables from level `w` on. */
  ghost function EntriesFrom(cs: CodeSet, w: nat): nat
    requires cs.l > 0
    decreases cs.g - w
  {
    LevelEntries(cs, w, Pow2(w)) + (if w + cs.l < cs.g then EntriesFrom(cs, w + cs.l) else 0)
  }

  /** Table entries that the tables of the code take. */
  ghost function Entries(cs: CodeSet): nat
    requires cs.l > 0
  {
    EntriesFrom(cs, 0)
  }

  /** The same codes, looked up with as many bits at a time. */
  predicate Alike(cs: CodeSet, ds: CodeSet) {
    cs.c == ds.c && cs.g == ds.g && cs.l == ds.l
  }

  lemma {:induction false} WidthAlike(cs: CodeSet, ds: CodeSet, top: nat, w: nat, j: nat)
    requires Alike(cs, ds)
    ensures WidthFrom(cs, top, w, j) == WidthFrom(ds, top, w, j)
    decreases Limit(cs, w) - j
  {
    hide Room;
    if j < Limit(cs, w) { WidthAlike(cs, ds, top, w, j + 1); }
  }

  lemma {:induction false} FirstBitsAlike(cs: CodeSet, ds: CodeSet, top: nat, w: nat, j: nat)
    requires Alike(cs, ds)
    ensures FirstBits(cs, top, w, j) == FirstBits(ds, top, w, j)
    decreases cs.g - (w + j)
  {
    hide Pow2, Beyond;
    if w + j < cs.g { FirstBitsAlike(cs, ds, top, w, j + 1); }
  }

  lemma {:induction false} LevelAlike(cs: CodeSet, ds: CodeSet, w: nat, n: nat)
    requires Alike(cs, ds)
    ensures LevelEntries(cs, w, n) == LevelEntries(ds, w, n)
  {
    hide Pow2, Beyond;
    if n > 0 {
      LevelAlike(cs, ds, w, n - 1);
      FirstBitsAlike(cs, ds, n - 1, w, 1);
      WidthAlike(cs, ds, n - 1, w, FirstBits(cs, n - 1, w, 1));
    }
  }

  lemma {:induction false} EntriesAlike(cs: CodeSet, ds: CodeSet, w: nat)
    requires Alike(cs, ds) && cs.l > 0
    ensures EntriesFrom(cs, w) == EntriesFrom(ds, w)
    decreases cs.g - w
  {
    hide Pow2, LevelEntries;
    LevelAlike(cs, ds, w, Pow2(w));
    if w + cs.l < cs.g { EntriesAlike(cs, ds, w + cs.l); }
  }

  // ----------------------------------------------------- tables that have been made

  /** Entries of the tables made so far. */
  function Spent(places: seq<Place>): nat {
    if |places| == 0 then 0 else Spent(places[..|places| - 1]) + Pow2(places[|places| - 1].width) + 1
  }

  /** The table stands for a prefix that goes on, and has the width for it. */
  ghost predicate Explained(cs: CodeSet, m: Place) {
    m.pre < Pow2(m.w) && Beyond(cs.c, m.w) <= Rev(m.w, m.pre) && m.w < cs.g
    && AtLevel(cs, m) && m.width == TableWidth(cs, Rev(m.w, m.pre), m.w)
  }

  predicate Distinct(places: seq<Place>) {
    forall t, t' :: 0 <= t < t' < |places| ==> places[t].w != places[t'].w || places[t].pre != places[t'].pre
  }

  ghost predicate Accounts(cs: CodeSet, places: seq<Place>) {
    Distinct(places) && forall t :: 0 <= t < |places| ==> Explained(cs, places[t])
  }

  predicate Has(places: seq<Place>, w: nat, top: nat) {
    exists t :: 0 <= t < |places| && places[t].w == w && Rev(w, places[t].pre) == top
  }

  ghost function LevelSpent(cs: CodeSet, places: seq<Place>, w: nat, n: nat): nat {
    if n == 0 then 0
      else LevelSpent(cs, places, w, n - 1) + (if Has(places, w, n - 1) then TableCost(cs, n - 1, w) else 0)
  }

  ghost function SpentFrom(cs: CodeSet, places: seq<Place>, w: nat): nat
    requires cs.l > 0
    decreases cs.g - w
  {
    LevelSpent(cs, places, w, Pow2(w)) + (if w + cs.l < cs.g then SpentFrom(cs, places, w + cs.l) else 0)
  }

  lemma HasAppend(places: seq<Place>, m: Place, w: nat, top: nat)
    ensures Has(places + [m], w, top) <==> Has(places, w, top) || (m.w == w && Rev(w, m.pre) == top)
  {
    hide Rev;
    var all := places + [m];
    assert all[|places|] == m;
    if Has(places, w, top) {
      var t :| 0 <= t < |places| && places[t].w == w && Rev(w, places[t].pre) == top;
      assert all[t] == places[t];
    }
  }

  lemma {:induction false} LevelAppend(cs: CodeSet, places: seq<Place>, m: Place, w: nat, n: nat)
    requires !Has(places, m.w, Rev(m.w, m.pre))
    ensures LevelSpent(cs, places + [m], w, n) ==
            LevelSpent(cs, places, w, n) + (if m.w == w
              && Rev(w, m.pre) < n then TableCost(cs, Rev(w, m.pre), w) else 0)
  {
    hide Rev, Has, TableCost;
    if n > 0 {
      LevelAppend(cs, places, m, w, n - 1);
      HasAppend(places, m, w, n - 1);
    }
  }

  lemma {:induction false} TotalAppend(cs: CodeSet, places: seq<Place>, m: Place, w: nat, d: nat)
    requires cs.l > 0 && !Has(places, m.w, Rev(m.w, m.pre)) && m.w == w + d * cs.l < cs.g
    ensures SpentFrom(cs, places + [m], w) == SpentFrom(cs, places, w) + TableCost(cs, Rev(m.w, m.pre), m.w)
    decreases d
  {
    hide Rev, Has, TableCost, Pow2, LevelSpent;
    LevelAppend(cs, places, m, w, Pow2(w));
    if d > 0 {
      assert d * cs.l == cs.l + (d - 1) * cs.l;
      TotalAppend(cs, places, m, w + cs.l, d - 1);
    } else if w + cs.l < cs.g {
      HigherSame(cs, places, m, w + cs.l);
    }
  }

  lemma {:induction false} HigherSame(cs: CodeSet, places: seq<Place>, m: Place, w: nat)
    requires cs.l > 0 && !Has(places, m.w, Rev(m.w, m.pre)) && m.w < w
    ensures SpentFrom(cs, places + [m], w) == SpentFrom(cs, places, w)
    decreases cs.g - w
  {
    hide Rev, Has, TableCost, Pow2, LevelSpent;
    LevelAppend(cs, places, m, w, Pow2(w));
    if w + cs.l < cs.g { HigherSame(cs, places, m, w + cs.l); }
  }

  lemma {:induction false} NothingSpent(cs: CodeSet, w: nat, n: nat)
    ensures LevelSpent(cs, [], w, n) == 0
  {
    hide TableCost;
    if n > 0 { NothingSpent(cs, w, n - 1); }
  }

  lemma {:induction false} NothingFrom(cs: CodeSet, w: nat)
    requires cs.l > 0
    ensures SpentFrom(cs, [], w) == 0
    decreases cs.g - w
  {
    NothingSpent(cs, w, Pow2(w));
    if w + cs.l < cs.g { NothingFrom(cs, w + cs.l); }
  }

  /** Entries spent are those of the prefixes that have a table. */
  lemma {:induction false} SpentIs(cs: CodeSet, places: seq<Place>)
    requires cs.l > 0 && Accounts(cs, places)
    ensures Spent(places) == SpentFrom(cs, places, 0)
    decreases |places|
  {
    hide Rev, TableWidth, Pow2, SpentFrom;
    if |places| == 0 {
      NothingFrom(cs, 0);
    } else {
      var n := |places| - 1;
      var first, m := places[..n], places[n];
      SpentIs(cs, first);
      assert places == first + [m] && Explained(cs, m) && AtLevel(cs, m);
      if Has(first, m.w, Rev(m.w, m.pre)) {
        var t :| 0 <= t < n && first[t].w == m.w && Rev(m.w, first[t].pre) == Rev(m.w, m.pre);
        SamePrefix(cs, first[t], m);
      }
      var h: nat :| m.w == h * cs.l;
      TotalAppend(cs, first, m, 0, h);
    }
  }

  lemma SamePrefix(cs: CodeSet, m: Place, m': Place)
    requires Explained(cs, m) && Explained(cs, m') && m.w == m'.w && Rev(m.w, m.pre) == Rev(m.w, m'.pre)
    ensures m.pre == m'.pre
  {
    RevInjective(m.w, m.pre, m'.pre);
    LowSmall(m.w, m.pre);
    LowSmall(m.w, m'.pre);
  }

  // ----------------------------------------------------------------- the comparison

  /** Every prefix that goes on has a table. */
  ghost predicate AllThere(cs: CodeSet, places: seq<Place>) {
    forall h: nat, top: nat :: Beyond(cs.c, h * cs.l) <= top < Pow2(h * cs.l) && h * cs.l < cs.g ==>
        Has(places, h * cs.l, top)
  }

  lemma OnlyThose(cs: CodeSet, places: seq<Place>, w: nat, top: nat)
    requires Accounts(cs, places) && Has(places, w, top)
    ensures Beyond(cs.c, w) <= top
  {
    var t :| 0 <= t < |places| && places[t].w == w && Rev(w, places[t].pre) == top;
    assert Explained(cs, places[t]);
  }

  lemma {:induction false} LevelWithin(cs: CodeSet, places: seq<Place>, w: nat, h: nat, n: nat)
    requires Accounts(cs, places) && w == h * cs.l < cs.g && n <= Pow2(w)
    ensures LevelSpent(cs, places, w, n) <= LevelEntries(cs, w, n)
    ensures AllThere(cs, places) ==> LevelSpent(cs, places, w, n) == LevelEntries(cs, w, n)
  {
    hide Rev, Has, TableCost, Pow2, Accounts;
    if n > 0 {
      LevelWithin(cs, places, w, h, n - 1);
      if Has(places, w, n - 1) { OnlyThose(cs, places, w, n - 1); }
    }
  }

  lemma {:induction false} FromWithin(cs: CodeSet, places: seq<Place>, w: nat, h: nat)
    requires cs.l > 0 && Accounts(cs, places) && w == h * cs.l < cs.g
    ensures SpentFrom(cs, places, w) <= EntriesFrom(cs, w)
    ensures AllThere(cs, places) ==> SpentFrom(cs, places, w) == EntriesFrom(cs, w)
    decreases cs.g - w
  {
    hide Rev, Has, TableCost, Pow2, Accounts, AllThere, LevelSpent, LevelEntries;
    LevelWithin(cs, places, w, h, Pow2(w));
    if w + cs.l < cs.g {
      assert w + cs.l == (h + 1) * cs.l;
      FromWithin(cs, places, w + cs.l, h + 1);
    }
  }

  /** Never more is spent than the code takes, and all of it once every prefix
      that goes on has its table. */
  lemma SpentWithin(cs: CodeSet, places: seq<Place>)
    requires ValidSet(cs) && Accounts(cs, places)
    ensures Spent(places) <= Entries(cs)
    ensures AllThere(cs, places) ==> Spent(places) == Entries(cs)
  {
    SpentIs(cs, places);
    FromWithin(cs, places, 0, 0);
  }

  // ------------------------------------------------------------------ upper bounds

  /** The first code below a prefix that goes on has the length of the code that
      the prefix followed by zeros starts with. */
  lemma FirstBitsAt(cs: CodeSet, top: nat, w: nat)
    requires ValidSet(cs) && w < cs.g && Beyond(cs.c, w) <= top < Pow2(w)
    ensures FirstBits(cs, top, w, 1) == LenOf(cs.c, Rev(w, top)) - w > 0 && FirstBits(cs, top, w, 1) <= cs.g - w
  {
    hide Pow2, Rev, Low, LenFrom, LenOf, Beyond, First, FirstBits;
    var str := Rev(w, top);
    RevRev(w, top);
    LowSmall(w, top);
    GoesOn(cs, w, str);
    LenFinds(cs.c, cs.g, str);
    FirstBitsIs(cs, w, LenOf(cs.c, str), str, 1);
  }

  /** Beyond the shorter codes only longer ones are left. */
  lemma GoesOn(cs: CodeSet, w: nat, str: nat)
    requires ValidSet(cs) && str < Pow2(w) && Beyond(cs.c, w) <= Rev(w, str)
    ensures LenOf(cs.c, str) > w
  {
    hide Pow2, Rev, LenFrom, LenOf, Beyond, First;
    var k := LenOf(cs.c, str);
    LenFinds(cs.c, cs.g, str);
    if k <= w {
      RevHead(k, w, str);
      BeyondGrows(cs.c, k, w);
      MulMono(Rev(k, str) + 1, Beyond(cs.c, k), Pow2(w - k));
    }
  }

  lemma {:induction false} WidthAtMost(cs: CodeSet, top: nat, w: nat, j: nat)
    requires j <= Limit(cs, w)
    ensures WidthFrom(cs, top, w, j) <= Limit(cs, w)
    decreases Limit(cs, w) - j
  {
    hide Room;
    if j < Limit(cs, w) { WidthAtMost(cs, top, w, j + 1); }
  }

  /** Without jumps no table is wider than a lookup, or than the rest of the
      longest code. */
  lemma NarrowWidth(cs: CodeSet, top: nat, h: nat)
    requires ValidSet(cs) && !WideJump(cs) && (exists k :: 0 < k <= cs.l && cs.c[k] > 0)
    requires h * cs.l < cs.g && Beyond(cs.c, h * cs.l) <= top < Pow2(h * cs.l)
    ensures TableWidth(cs, top, h * cs.l) <= Limit(cs, h * cs.l)
  {
    hide Pow2, Rev, LenFrom, LenOf, Beyond, First, FirstBits;
    var w := h * cs.l;
    FirstBitsAt(cs, top, w);
    if h == 0 {
      ShortestFirst(cs);
      assert top == 0 && Rev(0, 0) == 0 by { RevZero(0); OneNumber(top); }
    } else if FirstBits(cs, top, w, 1) > cs.l {
      LongCodeJumps(cs, h, w, Rev(w, top));
    }
    WidthAtMost(cs, top, w, FirstBits(cs, top, w, 1));
  }

  lemma LongCodeJumps(cs: CodeSet, h: nat, w: nat, str: nat)
    requires h > 0 && w == h * cs.l && str < Pow2(w) && LenOf(cs.c, str) > w + cs.l
    ensures WideJump(cs)
  {
    assert (h + 1) * cs.l == w + cs.l;
    assert JumpAt(cs, h, str);
  }

  lemma OneNumber(top: nat)
    requires top < Pow2(0)
    ensures top == 0
  {
  }

  /** Zeros start with the first of the shortest codes. */
  lemma ShortestFirst(cs: CodeSet)
    requires ValidSet(cs) && exists k :: 0 < k <= cs.l && cs.c[k] > 0
    ensures LenOf(cs.c, 0) <= cs.l
  {
    hide Rev, LenFrom, LenOf, Beyond;
    LenFinds(cs.c, cs.g, 0);
    var n := LenOf(cs.c, 0);
    RevZero(n);
    if n > cs.l {
      var k :| 0 < k <= cs.l && cs.c[k] > 0;
      FirstAfter(cs.c, k, n);
    }
  }

  lemma {:induction false} FirstAfter(c: seq<nat>, k: nat, n: nat)
    requires 0 < k < |c| && c[k] > 0 && k < n
    ensures First(c, n) > 0
  {
    if k + 1 < n { FirstAfter(c, k, n - 1); }
  }

  lemma {:induction false} LevelBound(cs: CodeSet, h: nat, n: nat)
    requires ValidSet(cs) && !WideJump(cs) && (exists k :: 0 < k <= cs.l && cs.c[k] > 0)
    requires h * cs.l < cs.g && n <= Pow2(h * cs.l)
    ensures var w := h * cs.l;
            LevelEntries(cs, w, n) <= (if n > Beyond(cs.c, w) then n - Beyond(cs.c, w)
              else 0) * (Pow2(Limit(cs, w)) + 1)
  {
    hide Pow2, Beyond, TableWidth;
    if n > 0 {
      var w := h * cs.l;
      LevelBound(cs, h, n - 1);
      if Beyond(cs.c, w) <= n - 1 {
        NarrowWidth(cs, n - 1, h);
        Pow2Mono(TableWidth(cs, n - 1, w), Limit(cs, w));
        MulSucc(n - 1 - Beyond(cs.c, w), Pow2(Limit(cs, w)) + 1);
      }
    }
  }

  /** Below every prefix that goes on there are two codes at least. */
  lemma LevelSize(cs: CodeSet, h: nat, w: nat)
    requires ValidSet(cs) && !WideJump(cs) && (exists k :: 0 < k <= cs.l && cs.c[k] > 0) && w == h * cs.l < cs.g
    ensures LevelEntries(cs, w, Pow2(w)) <= CodesFrom(cs.c, 1) / 2 * (Pow2(Limit(cs, w)) + 1)
  {
    hide Pow2, Beyond, LevelEntries, WideJump, CodesFrom;
    LevelBound(cs, h, Pow2(w));
    CodesFillRoom(cs, w + 1);
    CodesFromMono(cs.c, 1, w + 1);
    assert Pow2(w + 1) - First(cs.c, w + 1) == 2 * (Pow2(w) - Beyond(cs.c, w)) by { OneMore(cs.c, w); }
    var n := if Pow2(w) > Beyond(cs.c, w) then Pow2(w) - Beyond(cs.c, w) else 0;
    MulMono(n, CodesFrom(cs.c, 1) / 2, Pow2(Limit(cs, w)) + 1);
  }

  lemma OneMore(c: seq<nat>, w: nat)
    ensures Pow2(w + 1) == 2 * Pow2(w) && First(c, w + 1) == 2 * Beyond(c, w)
  {
  }

  /** The root table alone. */
  lemma RootSize(cs: CodeSet)
    requires ValidSet(cs) && !WideJump(cs) && (exists k :: 0 < k <= cs.l && cs.c[k] > 0)
    ensures LevelEntries(cs, 0, 1) <= Pow2(cs.l) + 1
  {
    hide Pow2, LevelEntries, WideJump;
    assert 0 * cs.l == 0;
    assert Pow2(0) == 1 by { OneTable(); }
    LevelBound(cs, 0, 1);
  }

  lemma OneTable()
    ensures Pow2(0) == 1
  {
  }
}
