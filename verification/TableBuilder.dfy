// huft_build: from code lengths to linked lookup tables.
module TableBuilder {
  import opened ReturnCodes
  import opened Words
  import opened Canonical
  import opened HuffmanTables
  import opened TableStack
  import opened TableMemory
  import opened WideTables

  // ------------------------------------------------ counting and classifying

  method CountLengths(b: seq<nat>) returns (c: array<nat>)
    requires ValidLengths(b)
    ensures fresh(c) && c[..] == Counts(b)
  {
    c := new nat[BMAX + 1](_ => 0);
    var i := 0;
    while i < |b|
      invariant 0 <= i <= |b|
      invariant forall k :: 0 <= k <= BMAX ==> c[k] == Count(b[..i], k)
    {
      ghost var len := b[i];
      c[b[i]] := c[b[i]] + 1;
      forall k | 0 <= k <= BMAX ensures Count(b[..i + 1], k) == Count(b[..i], k) + (if len == k then 1 else 0) {
        CountAppend(b, i, k);
      }
      i := i + 1;
    }
    assert b[..|b|] == b;
  }

  /** The shortest code length in use. */
  method Shortest(c: seq<nat>) returns (j: nat)
    requires |c| == BMAX + 1 && exists k :: 0 < k <= BMAX && c[k] > 0
    ensures 0 < j <= BMAX && c[j] > 0 && forall k :: 0 < k < j ==> c[k] == 0
  {
    j := 1;
    while j <= BMAX && c[j] == 0
      invariant 0 < j <= BMAX + 1 && forall k :: 0 < k < j ==> c[k] == 0
    {
      j := j + 1;
    }
  }

  /** The longest code length in use. */
  method Longest(c: seq<nat>) returns (g: nat)
    requires |c| == BMAX + 1 && exists k :: 0 < k <= BMAX && c[k] > 0
    ensures 0 < g <= BMAX && c[g] > 0 && forall k :: g < k <= BMAX ==> c[k] == 0
  {
    g := BMAX;
    while g > 0 && c[g] == 0
      invariant 0 <= g <= BMAX && forall k :: g < k <= BMAX ==> c[k] == 0
    {
      g := g - 1;
    }
  }

  /** The number of dummy codes needed to fill the code space, or a negative
      number when some length is over-subscribed. */
  method Deficit(c: seq<nat>, j0: nat, g: nat) returns (y: int)
    requires |c| == BMAX + 1 && 0 < j0 <= g <= BMAX
    requires forall k :: 0 < k < j0 ==> c[k] == 0
    ensures y < 0 <==> Beyond(c, g) > Pow2(g)
    ensures y >= 0 ==> y == Pow2(g) - Beyond(c, g)
  {
    var j := j0;
    y := Pow2(j);
    NothingShorter(c, j - 1);
    while j < g
      invariant j0 <= j <= g
      invariant y == Pow2(j) - First(c, j) && y >= 0
    {
      y := y - c[j];
      if y < 0 {
        OverStaysOver(c, j, g);
        return;
      }
      j, y := j + 1, y * 2;
    }
    y := y - c[g];
  }

  lemma {:induction false} NothingShorter(c: seq<nat>, k: nat)
    requires k < |c| && forall k' :: 0 < k' <= k ==> c[k'] == 0
    ensures Beyond(c, k) == 0
  {
    if k > 0 { NothingShorter(c, k - 1); }
  }

  lemma OverStaysOver(c: seq<nat>, j: nat, g: nat)
    requires j <= g && Beyond(c, j) > Pow2(j)
    ensures Beyond(c, g) > Pow2(g)
  {
    BeyondGrows(c, j, g);
    Pow2Add(j, g - j);
    MulMonoStrict(Pow2(j), Beyond(c, j), Pow2(g - j));
  }

  // ------------------------------------------------- symbols in code order

  /** The symbols of every length, in increasing order, from the offset of
      that length on; `upto` symbols have been placed. */
  ghost predicate Placed(b: seq<nat>, v: seq<nat>, upto: nat)
    requires upto <= |b|
  {
    |v| == N_MAX
    && forall k, r :: 0 < k <= BMAX && 0 <= r < Count(b[..upto], k) ==>
         PlacedAt(b, v, k, r)
  }

  ghost predicate PlacedAt(b: seq<nat>, v: seq<nat>, k: nat, r: nat)
  {
    var pos := Offset(Counts(b), k) + r;
    pos < |v| && v[pos] < |b| && b[v[pos]] == k && Count(b[..v[pos]], k) == r
  }

  lemma {:induction false} OffsetAppend(b: seq<nat>, len: nat, k: nat)
    requires len <= BMAX && k <= BMAX + 1
    ensures Offset(Counts(b + [len]), k) == Offset(Counts(b), k) + (if 0 < len < k then 1 else 0)
  {
    if k > 1 {
      OffsetAppend(b, len, k - 1);
      assert (b + [len])[..|b|] == b;
    }
  }

  lemma {:induction false} OffsetTotal(b: seq<nat>)
    requires forall i :: 0 <= i < |b| ==> b[i] <= BMAX
    ensures Offset(Counts(b), BMAX + 1) + Count(b, 0) == |b|
  {
    if |b| == 0 {
      OffsetNone(Counts(b), BMAX + 1);
    } else {
      var b' := b[..|b| - 1];
      OffsetTotal(b');
      OffsetAppend(b', b[|b| - 1], BMAX + 1);
      assert b == b' + [b[|b| - 1]];
    }
  }

  lemma {:induction false} OffsetNone(c: seq<nat>, k: nat)
    requires forall j :: 0 < j < |c| && j < k ==> c[j] == 0
    ensures Offset(c, k) == 0
  {
    if k > 1 { OffsetNone(c, k - 1); }
  }

  /** Where length `k` ends in the list. */
  lemma OffsetBound(b: seq<nat>, k: nat)
    requires forall i :: 0 <= i < |b| ==> b[i] <= BMAX
    requires 0 < k <= BMAX
    ensures Offset(Counts(b), k) + Count(b, k) <= |b| - Count(b, 0)
  {
    OffsetTotal(b);
    OffsetMono(Counts(b), k, BMAX + 1);
  }

  method Offsets(c: seq<nat>, g: nat) returns (x: array<nat>)
    requires |c| == BMAX + 1 && 0 < g <= BMAX
    ensures fresh(x) && x.Length == BMAX + 1
    ensures forall k :: 0 < k <= g ==> x[k] == Offset(c, k)
  {
    x := new nat[BMAX + 1](_ => 0);
    var i, j := 1, 0;
    while i < g
      invariant 1 <= i <= g && j == Offset(c, i)
      invariant forall k :: 0 < k <= i ==> x[k] == Offset(c, k)
    {
      j := j + c[i];
      x[i + 1] := j;
      i := i + 1;
    }
  }

  method OrderSymbols(b: seq<nat>, x: array<nat>, v: array<nat>, g: nat)
    requires ValidLengths(b) && 0 < g <= BMAX && x != v
    requires forall k :: g < k <= BMAX ==> Count(b, k) == 0
    requires x.Length == BMAX + 1 && v.Length == N_MAX
    requires forall k :: 0 < k <= g ==> x[k] == Offset(Counts(b), k)
    modifies x, v
    ensures Placed(b, v[..], |b|)
  {
    var i := 0;
    while i < |b|
      invariant 0 <= i <= |b|
      invariant forall k :: 0 < k <= g ==> x[k] == Offset(Counts(b), k) + Count(b[..i], k)
      invariant Placed(b, v[..], i)
    {
      var j := b[i];
      if j != 0 {
        RankBelow(b, i);
        assert j <= g;
        OffsetBound(b, j);
        ghost var before := v[..];
        v[x[j]] := i;
        PlaceOne(b, before, v[..], i);
        x[j] := x[j] + 1;
      }
      forall k | 0 <= k <= BMAX ensures Count(b[..i + 1], k) == Count(b[..i], k) + (if j == k then 1 else 0) {
        CountAppend(b, i, k);
      }
      i := i + 1;
    }
  }

  lemma PlaceOne(b: seq<nat>, v: seq<nat>, v': seq<nat>, i: nat)
    requires ValidLengths(b) && i < |b| && b[i] > 0 && Placed(b, v, i)
    requires Offset(Counts(b), b[i]) + Count(b[..i], b[i]) < |v|
    requires v' == v[Offset(Counts(b), b[i]) + Count(b[..i], b[i]) := i]
    ensures Placed(b, v', i + 1)
  {
    var j := b[i];
    var pos := Offset(Counts(b), j) + Count(b[..i], j);
    forall k, r | 0 < k <= BMAX && 0 <= r < Count(b[..i + 1], k)
      ensures PlacedAt(b, v', k, r)
    {
      CountAppend(b, i, k);
      if k == j && r == Count(b[..i], j) {
        assert v'[pos] == i;
      } else {
        assert PlacedAt(b, v, k, r);
        OtherPosition(b, i, k, r);
      }
    }
  }

  lemma OtherPosition(b: seq<nat>, i: nat, k: nat, r: nat)
    requires ValidLengths(b) && i < |b| && b[i] > 0 && 0 < k <= BMAX && r < Count(b[..i], k)
    ensures Offset(Counts(b), k) + r != Offset(Counts(b), b[i]) + Count(b[..i], b[i])
  {
    var j := b[i];
    RankBelow(b, i);
    CountMono(b, i, |b|, k);
    assert b[..|b|] == b;
    if k < j { OffsetMono(Counts(b), k, j); }
    if j < k { OffsetMono(Counts(b), j, k); }
  }

  // ------------------------------------------------------- width of a table

  /** How many bits the next table is indexed with: enough for the code at
      hand, more while the codes below this prefix do not fill the table, up to
      `l` bits. */
  method TableBits(cs: CodeSet, k: nat, w: nat, a: nat, ghost top: nat) returns (j: nat)
    requires ValidSet(cs) && w < k <= cs.g && top < Pow2(w)
    requires Room(cs.c, top, w, k - w) == Pow2(k - w) - (a + 1)
    ensures k - w <= j && w + j <= cs.g
    ensures if k - w > cs.l then j == k - w else j <= cs.l
    ensures j >= cs.l || Room(cs.c, top, w, j) <= 0
    ensures j == WidthFrom(cs, top, w, k - w)
  {
    hide Pow2, Beyond, First, LenOf, Room;
    var limit := if cs.g - w > cs.l then cs.l else cs.g - w;
    j := k - w;
    var f: int := Pow2(j);
    if f > a + 1 {
      f := f - (a + 1);
      var xp := k;
      if j < limit {
        j := j + 1;
        while j < limit
          invariant k - w < j <= limit && xp == w + j - 1
          invariant f == Room(cs.c, top, w, j - 1) && f > 0
          invariant WidthFrom(cs, top, w, k - w) == WidthFrom(cs, top, w, j)
        {
          RoomStep(cs.c, top, w, j - 1);
          f := f * 2;
          xp := xp + 1;
          if f <= cs.c[xp] { break; }
          f := f - cs.c[xp];
          j := j + 1;
        }
      }
    }
    RoomAtEnd(cs, top, w);
  }

  // -------------------------------------------------------- filling a table

  /** Copies the entry into every slot whose low bits are the code's. */
  method FillSlots(q: seq<Huft>, start: nat, n: nat, r: Huft) returns (q': seq<Huft>)
    requires start < Pow2(n)
    ensures |q'| == |q|
    ensures forall x :: 0 <= x < |q| ==> q'[x] == if Low(n, x) == start then r else q[x]
  {
    q' := q;
    var j := start;
    ghost var t := 0;
    forall x | 0 <= x < start && x < |q| ensures Low(n, x) != start {
      LowSmall(n, x);
    }
    while j < |q|
      invariant |q'| == |q| && j == t * Pow2(n) + start
      invariant forall x :: 0 <= x < |q| && x < j ==> q'[x] == if Low(n, x) == start then r else q[x]
      invariant forall x :: j <= x < |q| ==> q'[x] == q[x]
      decreases |q| - j
    {
      Recombine(n, t, start);
      ghost var j' := j + Pow2(n);
      forall x | j < x < j' ensures Low(n, x) != start {
        NotBetween(n, t, start, x);
      }
      q' := q'[j := r];
      MulSucc(t, Pow2(n));
      t := t + 1;
      j := j + Pow2(n);
    }
  }

  lemma NotBetween(n: nat, t: nat, start: nat, x: nat)
    requires start < Pow2(n) && t * Pow2(n) + start < x < (t + 1) * Pow2(n) + start
    ensures Low(n, x) != start
  {
    SplitAt(n, x);
    if Low(n, x) == start {
      var s := Shr(n, x);
      if s <= t { MulMono(s, t, Pow2(n)); } else { MulMono(t + 1, s, Pow2(n)); }
    }
  }

  // ------------------------------------------------- the backwards increment

  /** Adds one to a code whose bits are stored in the opposite order. */
  method BackwardsIncrement(i: nat, k: nat, ghost cur: nat) returns (i': nat)
    requires k > 0 && cur < Pow2(k) && i == Rev(k, cur)
    ensures i' == if cur + 1 < Pow2(k) then Rev(k, cur + 1) else 0
  {
    // bit number of j, plus one; zero once j has been shifted out
    var n := k;
    i' := i;
    ghost var hi := cur;
    while n > 0 && Shr(n - 1, i') % 2 == 1
      invariant n <= k && 0 <= hi < Pow2(n) && i' == Rev(n, hi)
      invariant cur + 1 == (hi + 1) * Pow2(k - n)
    {
      TopBit(n, hi);
      TrailingOnes(hi, k - n);
      i' := i' - Pow2(n - 1);
      hi := hi / 2;
      n := n - 1;
    }
    if n > 0 { TopBit(n, hi); }
    Carried(k, n, hi);
    if n > 0 {
      i' := i' + Pow2(n - 1);
    }
  }

  /** The highest stored bit is the lowest bit of the number. */
  lemma TopBit(n: nat, hi: nat)
    requires n > 0
    ensures Shr(n - 1, Rev(n, hi)) % 2 == hi % 2
    ensures Rev(n, hi) == (if hi % 2 == 1 then Pow2(n - 1) else 0) + Rev(n - 1, hi / 2)
  {
    assert 1 * Pow2(n - 1) == Pow2(n - 1) && 0 * Pow2(n - 1) == 0;
    Recombine(n - 1, hi % 2, Rev(n - 1, hi / 2));
  }

  lemma TrailingOnes(hi: nat, m: nat)
    requires hi % 2 == 1
    ensures (hi + 1) * Pow2(m) == (hi / 2 + 1) * Pow2(m + 1)
  {
    assert hi + 1 == 2 * (hi / 2 + 1);
  }

  lemma Carried(k: nat, n: nat, hi: nat)
    requires n <= k && hi < Pow2(n) && (n > 0 ==> hi % 2 == 0)
    ensures n == 0 ==> (hi + 1) * Pow2(k - n) == Pow2(k)
    ensures n > 0 ==> (hi + 1) * Pow2(k - n) < Pow2(k)
                      && Rev(k, (hi + 1) * Pow2(k - n)) == Pow2(n - 1) + Rev(n - 1, hi / 2)
  {
    if n > 0 {
      RoomForOne(n, hi);
      RevOdd(n, hi);
      hide Pow2, Rev;
      ShiftedUp(n, k - n, hi + 1);
    } else {
      UnitPower(hi, Pow2(k));
    }
  }

  /** Zeros in front become zeros behind. */
  lemma ShiftedUp(n: nat, m: nat, x: nat)
    requires x < Pow2(n)
    ensures x * Pow2(m) < Pow2(m + n) && Rev(m + n, x * Pow2(m)) == Rev(n, x)
  {
    hide Pow2, Rev, Low, Shr;
    MulMonoStrict(x, Pow2(n), Pow2(m));
    Pow2Add(n, m);
    var y := x * Pow2(m);
    Recombine(m, x, 0);
    assert Shr(m, y + 0) == x && Low(m, y + 0) == 0;
    RevSplit(m, n, y);
    RevLow(m, y);
    RevZero(m);
    assert Rev(m, y) == 0;
  }

  lemma UnitPower(hi: nat, x: nat)
    requires hi < Pow2(0)
    ensures (hi + 1) * x == x
  {
  }

  lemma RoomForOne(n: nat, hi: nat)
    requires n > 0 && hi < Pow2(n) && hi % 2 == 0
    ensures hi + 1 < Pow2(n)
  {
  }

  lemma RevOdd(n: nat, hi: nat)
    requires n > 0 && hi % 2 == 0
    ensures Rev(n, hi + 1) == Pow2(n - 1) + Rev(n - 1, hi / 2)
  {
  }

  // ------------------------------------------------------------- the builder

  ghost predicate UntouchedIn(tables: seq<seq<Huft>>, places: seq<Place>, junk: (nat, nat) -> Huft) {
    |tables| == |places|
    && forall t, y :: 0 <= t < |tables| && Pow2(places[t].jb) <= y < |tables[t]| ==> tables[t][y] == junk(t, y)
  }

  lemma UntouchedExtends(cs: CodeSet, tables: seq<seq<Huft>>, places: seq<Place>, u: seq<nat>, h: int, i: nat,
                         m': Place, tables': seq<seq<Huft>>, places': seq<Place>, u': seq<nat>,
                           junk: (nat, nat) -> Huft)
    requires Shape(cs, tables, places) && 0 <= h < |u| && u[h] < |places|
    requires Extends(cs, tables, places, u, h, i, m', tables', places', u')
    requires i < Pow2(places[u[h]].w + cs.l) && places[u[h]].jb == cs.l
    requires Low(places[u[h]].w, i) == places[u[h]].pre
    requires UntouchedIn(tables, places, junk)
    requires forall y :: 0 <= y < |tables'[|tables|]| ==> tables'[|tables|][y] == junk(|tables|, y)
    requires m'.width > cs.l <==> LenOf(cs.c, i) > m'.w + cs.l
    ensures UntouchedIn(tables', places', junk)
    ensures WidthsExplained(cs, places) ==> WidthsExplained(cs, places')
  {
    LinkSlot(cs, places[u[h]], i);
  }

  /** What holds between codes, apart from the code itself. */
  ghost predicate SoundState(cs: CodeSet, junk: (nat, nat) -> Huft, tables: seq<seq<Huft>>, places: seq<Place>,
                             u: seq<nat>, x: seq<nat>, h: int, w: int)
  {
    ValidSet(cs) && Shape(cs, tables, places) && WidthsExplained(cs, places) && AtLevels(cs, places)
    && UntouchedIn(tables, places, junk)
    && |u| == BMAX && |x| == BMAX + 1 && x[0] == 0 && u[0] == 0 && -1 <= h < BMAX
    && (forall j :: 0 <= j <= h ==> u[j] < |places| && x[j] == places[u[j]].pre)
    && (if h == -1 then w == 0 - cs.l && tables == [] else w == places[u[h]].w)
    && (forall j :: 0 <= j < h ==> places[u[j + 1]].w == places[u[j]].w + cs.l)
  }

  lemma SoundExtends(cs: CodeSet, junk: (nat, nat) -> Huft, tables: seq<seq<Huft>>, places: seq<Place>,
                     u: seq<nat>, x: seq<nat>, h: int, w: int, k: nat, i: nat,
                     m': Place, tables': seq<seq<Huft>>, places': seq<Place>, u': seq<nat>)
    requires SoundState(cs, junk, tables, places, u, x, h, w) && 0 <= h
    requires Entering(cs, tables, places, u, h, k, i) && k > w + cs.l
    requires Extends(cs, tables, places, u, h, i, m', tables', places', u')
    requires forall y :: 0 <= y < |tables'[|tables|]| ==> tables'[|tables|][y] == junk(|tables|, y)
    requires m'.width > cs.l <==> LenOf(cs.c, i) > m'.w + cs.l
    ensures Entering(cs, tables', places', u', h + 1, k, i)
    ensures SoundState(cs, junk, tables', places', u', x[h + 1 := i], h + 1, w + cs.l)
  {
    StartsSubtree(cs, tables, places, u, h, k, i);
    TableStarts(cs, tables, places, u, h, k, i, m', tables', places', u');
    UntouchedExtends(cs, tables, places, u, h, i, m', tables', places', u', junk);
    LevelsExtend(cs, places, places[u[h]], m');
  }

  lemma LevelsExtend(cs: CodeSet, places: seq<Place>, m: Place, m': Place)
    requires AtLevels(cs, places) && m in places && m'.w == m.w + cs.l
    ensures AtLevels(cs, places + [m'])
  {
    assert AtLevel(cs, m);
    var h: nat :| m.w == h * cs.l;
    assert m'.w == (h + 1) * cs.l;
  }

  /** The state of the table-building loop: the stack `u` of open tables with
      their prefixes `x`, the table being filled, the current code and the next
      symbol. */
  class Builder {
    const cs: CodeSet
    const junk: (nat, nat) -> Huft   // what freshly allocated memory holds
    var tables: seq<seq<Huft>>
    ghost var places: seq<Place>
    var u: seq<nat>
    var x: seq<nat>
    var h: int
    var w: int
    var q: nat      // the table being filled
    var i: nat      // current code, first bit lowest
    var p: nat      // next position in the ordered symbols
    var r: Huft
    var left: nat   // entries that can still be allocated
    const memory: nat

    constructor (cs: CodeSet, junk: (nat, nat) -> Huft, memory: nat)
      requires ValidSet(cs)
      ensures this.cs == cs && this.junk == junk && this.memory == memory
      ensures Initial() && Accounted()
    {
      this.cs, this.junk, this.memory := cs, junk, memory;
      tables, places := [], [];
      u, x := seq(BMAX, _ => 0), seq(BMAX + 1, _ => 0);
      h, w, q, i, p := -1, 0 - cs.l, 0, 0, 0;
      r, left := Huft(0, 0, 0), memory;
    }

    ghost predicate Sound()
      reads this
    {
      SoundState(cs, junk, tables, places, u, x, h, w)
    }

    /** What the tables take and what is left is all the memory there was. */
    ghost predicate Accounted()
      reads this
    {
      left + Spent(places) == memory && Accounts(cs, places)
    }

    /** Code `i` of `k` bits is about to be entered. */
    ghost predicate AtCode(k: nat)
      reads this
    {
      Sound() && w < k && 0 < k <= cs.g && CodeAt(cs.c, k, i) && i < Pow2(k)
      && if h == -1 then i == 0 && k <= cs.l
         else Entering(cs, tables, places, u, h, k, i) && (q == u[h] || k > w + cs.l)
    }

    /** Allocates the table for the current code and links it to its parent. */
    method StartTable(k: nat, a: nat) returns (ok: bool)
      requires AtCode(k) && k > w + cs.l && a + 1 + Rev(k, i) == Beyond(cs.c, k) && Accounted()
      modifies this
      ensures i == old(i) && p == old(p)
      ensures ok ==> AtCode(k) && h == old(h) + 1 && q == u[h] && old(places) <= places && Accounted()
      ensures !ok ==> memory < Entries(cs)
    {
      hide Pow2, Rev, Low, Shr, LenFrom, Beyond, First, Offset, LenOf, Position, Spent, Accounts, TableWidth, Entries;
      var j := NextWidth(k, a);
      var z := Pow2(j);
      Affordable(k, j);
      if z + 1 > left {
        return false;
      }
      left := left - (z + 1);
      if h == -1 {
        StartRoot(k);
      } else {
        StartBelow(k, j);
      }
      ok := true;
    }

    /** The table about to be made is one of those the code takes. */
    lemma Affordable(k: nat, j: nat)
      requires AtCode(k) && k > w + cs.l && Accounted() && (h == -1 ==> j == cs.l)
      requires j == TableWidth(cs, Rev(w + cs.l, i), w + cs.l)
      ensures var m' := Place(w + cs.l, i, if j > cs.l then cs.l else j, j);
              Accounts(cs, places + [m']) && Spent(places + [m']) == Spent(places) + Pow2(j) + 1
      ensures Spent(places) + Pow2(j) + 1 <= Entries(cs)
    {
      hide Pow2, Rev, Low, Shr, LenFrom, Beyond, First, Offset, LenOf, Position, TableWidth, Entries, Filled, Open,
           Closed;
      var m' := Place(w + cs.l, i, if j > cs.l then cs.l else j, j);
      var all := places + [m'];
      assert all[..|places|] == places;
      if h >= 0 {
        StartsSubtree(cs, tables, places, u, h, k, i);
        NewPrefix(cs, tables, places, u, h, k, i);
      }
      AtNextLevel(k);
      PrefixFree(cs.c, k, w + cs.l, i);
      assert Explained(cs, m');
      AccountsMore(cs, places, m');
      SpentWithin(cs, all);
    }

    lemma AtNextLevel(k: nat)
      requires AtCode(k)
      ensures exists h': nat :: w + cs.l == h' * cs.l
    {
      if h == -1 {
        assert w + cs.l == 0 * cs.l;
      } else {
        assert AtLevel(cs, places[u[h]]);
        var h': nat :| places[u[h]].w == h' * cs.l;
        assert w + cs.l == (h' + 1) * cs.l;
      }
    }

    method StartBelow(k: nat, j: nat)
      requires AtCode(k) && h >= 0 && k > w + cs.l
      requires PlaceOK(cs, Place(w + cs.l, i, if j > cs.l then cs.l else j, j))
      requires j > cs.l <==> k > w + cs.l + cs.l
      modifies this
      ensures i == old(i) && p == old(p) && left == old(left)
      ensures AtCode(k) && h == old(h) + 1 && q == u[h]
      ensures places == old(places) + [Place(old(w) + cs.l, i, if j > cs.l then cs.l else j, j)]
    {
      hide Pow2, Rev, Low, Shr, LenFrom, Beyond, First, Offset, Position, Filled, Closed, WidthsExplained,
           UntouchedIn, CodeAt;
      ghost var tables0, places0, u0, h0, w0, x0 := tables, places, u, h, w, x;
      StartsSubtree(cs, tables, places, u, h, k, i);
      LevelBelow(k);
      LinkSlot(cs, places[u[h]], i);
      Pow2Mono(cs.l, places[u[h]].width);
      LenIs(cs.c, k, i);
      ghost var m' := LinkTable(j);
      SoundExtends(cs, junk, tables0, places0, u0, x0, h0, w0, k, i, m', tables, places, u);
    }

    method StartRoot(k: nat)
      requires AtCode(k) && h == -1
      modifies this
      ensures i == old(i) && p == old(p) && left == old(left)
      ensures AtCode(k) && h == 0 && q == u[0] && places == old(places) + [Place(0, 0, cs.l, cs.l)]
    {
      h, w, q := 0, 0, 0;
      tables, places := [Allocated(0, Pow2(cs.l))], [Place(0, 0, cs.l, cs.l)];
      assert places[0].w == 0 * cs.l;
      LenIs(cs.c, k, i);
      RootStarts(cs, tables[0], u, k);
    }

    function Allocated(index: nat, z: nat): (s: seq<Huft>)
      ensures |s| == z && forall y :: 0 <= y < z ==> s[y] == junk(index, y)
    {
      var junk := junk;
      seq(z, (y: nat) => junk(index, y))
    }

    method NextWidth(k: nat, a: nat) returns (j: nat)
      requires AtCode(k) && k > w + cs.l && a + 1 + Rev(k, i) == Beyond(cs.c, k)
      ensures PlaceOK(cs, Place(w + cs.l, i, if j > cs.l then cs.l else j, j))
      ensures j > cs.l <==> k > w + cs.l + cs.l
      ensures h == -1 ==> j == cs.l
      ensures j == TableWidth(cs, Rev(w + cs.l, i), w + cs.l)
    {
      hide Pow2, Rev, Low, Shr, LenFrom, Beyond, First, Offset, LenOf, Position, Filled, Closed, Open,
           WidthsExplained, AtLevels, UntouchedIn, Room;
      if h >= 0 {
        StartsSubtree(cs, tables, places, u, h, k, i);
      }
      RoomAtStart(cs, k, w + cs.l, i, a);
      j := TableBits(cs, k, w + cs.l, a, Rev(w + cs.l, i));
      WidthFits(cs, w + cs.l, i, j);
      FirstBitsIs(cs, w + cs.l, k, i, 1);
      if h == -1 { RootWidth(cs, k, j); }
    }

    method LinkTable(j: nat) returns (ghost m': Place)
      requires 0 <= h && h + 1 < |u| && h + 1 < |x| && 0 <= w && u[h] < |places| && w == places[u[h]].w
      requires Shape(cs, tables, places) && Shr(w, i) < |tables[u[h]]|
      requires PlaceOK(cs, Place(w + cs.l, i, if j > cs.l then cs.l else j, j))
      modifies this
      ensures i == old(i) && p == old(p) && left == old(left)
      ensures h == old(h) + 1 && h < |u| && w == old(w) + cs.l && x == old(x)[h := i] && q == u[h]
      ensures m' == Place(w, i, if j > cs.l then cs.l else j, j)
      ensures Extends(cs, old(tables), old(places), old(u), old(h), i, m', tables, places, u)
      ensures tables[|old(tables)|] == Allocated(|old(tables)|, Pow2(j))
    {
      hide Pow2, Rev, Low, Shr, LenFrom, Beyond, First, Offset, LenOf, Position;
      m' := Place(w + cs.l, i, if j > cs.l then cs.l else j, j);
      x := x[h + 1 := i];
      u := u[h + 1 := |tables|];
      r := Huft(j, cs.l, |tables|);
      var parent := tables[u[h]][Shr(w, i) := r];
      ExtendsBuilt(cs, tables, places, old(u), h, i, m', parent, Allocated(|tables|, Pow2(j)));
      tables := tables[u[h] := parent] + [Allocated(|tables|, Pow2(j))];
      places := places + [m'];
      h, w, q := h + 1, w + cs.l, u[h + 1];
    }

    /** Makes tables until the code fits the current one. */
    method MakeTables(k: nat, a: nat) returns (ok: bool)
      requires AtCode(k) && a + 1 + Rev(k, i) == Beyond(cs.c, k) && Accounted()
      modifies this
      ensures i == old(i) && p == old(p)
      ensures ok ==> AtCode(k) && h >= 0 && q == u[h] && k <= w + cs.l && old(places) <= places && Accounted()
      ensures !ok ==> memory < Entries(cs)
    {
      hide Pow2, Rev, Low, Shr, LenFrom, Beyond, First, Offset, LenOf, Position, Spent, Accounts, Entries;
      ok := true;
      while k > w + cs.l
        invariant AtCode(k) && i == old(i) && p == old(p) && old(places) <= places && Accounted()
        decreases BMAX - h
      {
        ok := StartTable(k, a);
        if !ok { return; }
      }
    }

    /** Sets up the entry for the next symbol, or for an unused code. */
    method SetEntry(k: nat)
      requires AtCode(k) && h >= 0 && w < k
      requires p == if Position(cs.c, i) < cs.n then Position(cs.c, i) else cs.n
      modifies `r, `p
      ensures LeafOK(cs, Position(cs.c, i), k - w, r)
      ensures p == if Position(cs.c, i) + 1 < cs.n then Position(cs.c, i) + 1 else cs.n
    {
      PositionNat(cs, i);
      if p >= cs.n {
        r := Huft(INVALID_CODE, k - w, r.more);
      } else {
        r := Huft(SymbolExop(cs.al, cs.v[p]), k - w, SymbolBase(cs.al, cs.v[p]));
        p := p + 1;
      }
    }

    /** Enters the current code in every slot it covers. */
    method EnterCode(k: nat)
      requires AtCode(k) && h >= 0 && q == u[h] && k <= w + cs.l && w < k
      requires LeafOK(cs, Position(cs.c, i), k - w, r)
      modifies `tables
      ensures Sound() && |tables| == |places|
      ensures tables == old(tables)[q := tables[q]] && |tables[q]| == |old(tables)[q]|
      ensures forall y :: 0 <= y < |tables[q]| ==>
                tables[q][y] == if Low(k - w, y) == Shr(w, i) then r else old(tables)[q][y]
      ensures Open(cs, tables, places, u, h, i) && Closed(cs, tables, places, u, h, Rev(cs.g, i))
      ensures Filled(cs, tables, places, Rev(cs.g, i) + Pow2(cs.g - k))
    {
      hide Filled, Closed, Open, WidthsExplained, AtLevels, UntouchedIn, CodeAt, LenOf, Position, Pow2, Rev, Low, Shr;
      ShrBelow(w, k - w, i);
      var filled := FillSlots(tables[q], Shr(w, i), k - w, r);
      NotWide(k);
      EnteredCode(cs, junk, tables, places, u, x, h, w, k, i, filled, r);
      tables := tables[q := filled];
    }

    lemma NotWide(k: nat)
      requires AtCode(k) && h >= 0 && w < k <= w + cs.l
      ensures places[u[h]].width <= cs.l
    {
      LenIs(cs.c, k, i);
      FirstIsShortest(cs, w, k, i);
    }

    /** Moves to the next code and drops the tables it does not pass through. */
    method NextCode(k: nat)
      requires Sound() && h >= 0 && 0 < k <= cs.g && i < Pow2(k) && w < k
      requires Open(cs, tables, places, u, h, i) && Closed(cs, tables, places, u, h, Rev(cs.g, i))
      requires Filled(cs, tables, places, Rev(cs.g, i) + Pow2(cs.g - k))
      requires q == u[h]
      modifies `i, `h, `w
      ensures Sound() && h >= 0
      ensures if Rev(k, old(i)) + 1 < Pow2(k)
              then Passing(k) && Rev(k, i) == Rev(k, old(i)) + 1
              else Filled(cs, tables, places, Pow2(cs.g))
    {
      hide Pow2, Rev, Low, Shr, Open, Closed, Filled, WidthsExplained, UntouchedIn, Passing, ValidSet;
      ghost var i0, h0 := i, h;
      LowSmall(k, i);
      RevRev(k, i);
      i := BackwardsIncrement(i, k, Rev(k, i));
      BackUp();
      if Rev(k, i0) + 1 < Pow2(k) {
        StepsUp(k, cs.g, i0, i);
        StillPassing(i0, h0, k);
      } else {
        LastCode(k, cs.g, i0);
      }
    }

    lemma StillPassing(i0: nat, h0: int, k: nat)
      requires Sound() && 0 <= h <= h0 < BMAX && Shape(cs, tables, places)
      requires Open(cs, tables, places, u, h0, i0) && Closed(cs, tables, places, u, h0, Rev(cs.g, i0))
      requires Filled(cs, tables, places, Rev(cs.g, i)) && Rev(cs.g, i0) <= Rev(cs.g, i) && i < Pow2(k)
      requires Low(w, i) == x[h] && q == u[h0] && places[u[h0]].w < k && w < k
      requires forall j :: h < j <= h0 ==> Low(places[u[j]].w, i) != places[u[j]].pre
      ensures Passing(k)
    {
      hide Pow2, Rev, Low, Shr, Closed, Filled;
      Popped(cs, tables, places, u, h0, i0, h, i);
      if h < h0 {
        forall j | 0 <= j < h0 ensures places[u[j + 1]].w == places[u[j]].w + cs.l {
          assert HangsBelow(cs, tables, places, u[j], u[j + 1]);
        }
        Shallower(h0, k);
      }
    }

    /** The stack follows code `i`, and every slot before it is final. */
    ghost predicate Passing(k: nat)
      reads this
    {
      Sound() && 0 <= h && w < k && i < Pow2(k)
      && Open(cs, tables, places, u, h, i) && Closed(cs, tables, places, u, h, Rev(cs.g, i))
      && Filled(cs, tables, places, Rev(cs.g, i)) && (q == u[h] || k > w + cs.l)
    }

    method BackUp()
      requires Sound() && h >= 0
      modifies `h, `w
      ensures Sound() && 0 <= h <= old(h) && w <= old(w) && Low(w, i) == x[h]
      ensures forall j :: h < j <= old(h) ==> Low(places[u[j]].w, i) != places[u[j]].pre
    {
      while Low(w, i) != x[h]
        invariant Sound() && 0 <= h <= old(h) && w <= old(w)
        invariant forall j :: h < j <= old(h) ==> Low(places[u[j]].w, i) != places[u[j]].pre
        decreases h
      {
        h, w := h - 1, w - cs.l;
      }
    }

    lemma Shallower(h0: int, k: nat)
      requires Sound() && 0 <= h < h0 < BMAX && u[h0] < |places| && places[u[h0]].w < k
      requires forall j :: 0 <= j <= h0 ==> u[j] < |places|
      requires forall j :: 0 <= j < h0 ==> places[u[j + 1]].w == places[u[j]].w + cs.l
      ensures k > w + cs.l
    {
      LevelsRise(h + 1, h0);
    }

    /** The codes below `cur` among those of `k` bits, and all shorter ones,
        have been entered. */
    ghost predicate Entered(k: nat, cur: nat)
      reads this
    {
      ValidSet(cs) && First(cs.c, k) <= cur <= Beyond(cs.c, k)
      && p == (if Offset(cs.c, k) + cur - First(cs.c, k) < cs.n then Offset(cs.c, k) + cur - First(cs.c, k) else cs.n)
      && if cur < Pow2(k) then Passing(k) && Rev(k, i) == cur
         else Sound() && h >= 0 && Filled(cs, tables, places, Pow2(cs.g))
    }

    ghost predicate Initial()
      reads this
    {
      Sound() && h == -1 && i == 0 && p == 0
    }

    /** Enters every code, shortest first. */
    method Build(shortest: nat) returns (ok: bool)
      requires Initial() && Accounted() && 0 < shortest <= cs.l && cs.c[shortest] > 0
      requires forall k :: 0 < k < shortest ==> cs.c[k] == 0
      modifies this
      ensures ok <==> memory >= Entries(cs)
      ensures ok ==> Sound() && AllFilled(cs, tables, places) && left == memory - Entries(cs)
    {
      hide Pow2, Rev, Low, First, Offset, Open, Closed, Filled, WidthsExplained, UntouchedIn, Passing, Spent,
           Accounts, Entries;
      var k := shortest;
      NothingShorter(cs.c, k - 1);
      OffsetNone(cs.c, k);
      ok := EnterLength(k);
      if !ok { return; }
      while k < cs.g
        invariant shortest <= k <= cs.g && Entered(k, Beyond(cs.c, k)) && h >= 0 && Accounted()
      {
        Lengthen(k);
        k := k + 1;
        ok := EnterLength(k);
        if !ok { return; }
      }
      AllMade(cs, tables, places);
      SpentWithin(cs, places);
    }

    /** Codes keep their place when the length at hand grows. */
    lemma Lengthen(k: nat)
      requires Entered(k, Beyond(cs.c, k)) && 0 < k < cs.g && h >= 0
      ensures Entered(k + 1, First(cs.c, k + 1))
    {
      hide Pow2, Rev, Low, Shr, Beyond, First, Offset, Open, Closed, Filled, WidthsExplained, UntouchedIn;
      NextLength(cs, k);
      RevLast(k, i);
      LowSmall(k, i);
    }

    lemma ReadyToEnter(k: nat, a: nat)
      requires ValidSet(cs) && 0 < k <= cs.g && a < cs.c[k]
      requires if h == -1 then Initial() && k <= cs.l && a + 1 == cs.c[k] == Beyond(cs.c, k) && Offset(cs.c, k) == 0
               else Entered(k, Beyond(cs.c, k) - (a + 1))
      ensures AtCode(k) && a + 1 + Rev(k, i) == Beyond(cs.c, k)
      ensures p == if Position(cs.c, i) < cs.n then Position(cs.c, i) else cs.n
      ensures Position(cs.c, i) == Offset(cs.c, k) + Rev(k, i) - First(cs.c, k)
    {
      hide Pow2, Low, Shr, Open, Closed, Filled, WidthsExplained, UntouchedIn, LenFrom, LenOf;
      NeverOver(cs.c, cs.g, k);
      RevZero(k);
      LenIs(cs.c, k, i);
    }

    /** Enters all codes of one length. */
    method EnterLength(k: nat) returns (ok: bool)
      requires ValidSet(cs) && 0 < k <= cs.g
      requires if h == -1 then Initial() && k <= cs.l && cs.c[k] > 0 && Beyond(cs.c, k) == cs.c[k]
               && Offset(cs.c, k) == 0
               else Entered(k, First(cs.c, k))
      requires Accounted()
      modifies this
      ensures ok ==> Entered(k, Beyond(cs.c, k)) && h >= 0 && Accounted()
      ensures !ok ==> memory < Entries(cs)
    {
      hide Pow2, Rev, Beyond, Offset, SoundState, Filled, Open, Closed, Spent, Accounts, Entries;
      var a := cs.c[k];
      assert First(cs.c, k) + cs.c[k] == Beyond(cs.c, k) by { FirstBeyond(cs.c, k); }
      ok := true;
      while a > 0
        invariant 0 <= a <= cs.c[k]
        invariant h == -1 ==>
                    Initial() && a == cs.c[k] && a > 0 && k <= cs.l && Beyond(cs.c, k) == cs.c[k]
                    && Offset(cs.c, k) == 0
        invariant h != -1 ==> Entered(k, Beyond(cs.c, k) - a)
        invariant Accounted()
      {
        a := a - 1;
        ok := EnterNext(k, a);
        if !ok { return; }
      }
    }

    /** Enters one code, `a` more of its length remaining. */
    method EnterNext(k: nat, a: nat) returns (ok: bool)
      requires ValidSet(cs) && 0 < k <= cs.g && a < cs.c[k]
      requires if h == -1 then Initial() && k <= cs.l && a + 1 == cs.c[k] == Beyond(cs.c, k) && Offset(cs.c, k) == 0
               else Entered(k, Beyond(cs.c, k) - (a + 1))
      requires Accounted()
      modifies this
      ensures ok ==> h >= 0 && Entered(k, Beyond(cs.c, k) - a) && Accounted()
      ensures !ok ==> memory < Entries(cs)
    {
      hide Pow2, Rev, Low, Shr, Open, Closed, Filled, WidthsExplained, UntouchedIn, LenFrom, LenOf, Beyond, First,
           Offset, Position, AtLevels, Shape, PlaceOK, SymbolExop, SymbolBase, Entering, Spent, Accounts, Entries,
           Complete, LeafOK, SlotOK, LinkOK, SlotBits, Limit;
      ReadyToEnter(k, a);
      NeverOver(cs.c, cs.g, k);
      ok := MakeTables(k, a);
      if !ok { return; }
      SetEntry(k);
      EnterCode(k);
      NextCode(k);
    }

    lemma {:induction false} LevelsRise(a: nat, b: nat)
      requires |u| == BMAX && a <= b < BMAX && forall j :: 0 <= j <= b ==> u[j] < |places|
      requires forall j :: 0 <= j < b ==> places[u[j + 1]].w == places[u[j]].w + cs.l
      ensures places[u[a]].w <= places[u[b]].w
      decreases b - a
    {
      if a < b { LevelsRise(a, b - 1); }
    }

    lemma LevelBelow(k: nat)
      requires AtCode(k) && h >= 0 && k > w + cs.l
      ensures h + 1 < BMAX
    {
      WidthsGrow(cs, tables, places, u, h, i, 0, h);
    }
  }

  lemma AccountsMore(cs: CodeSet, places: seq<Place>, m: Place)
    requires Accounts(cs, places) && Explained(cs, m)
    requires forall t :: 0 <= t < |places| ==> places[t].w != m.w || places[t].pre != m.pre
    ensures Accounts(cs, places + [m])
  {
    hide Explained;
    var all := places + [m];
    forall t | 0 <= t < |all| ensures Explained(cs, all[t]) {
      if t < |places| { assert all[t] == places[t]; }
    }
  }

  /** No earlier table has the prefix of the one about to be made. */
  lemma NewPrefix(cs: CodeSet, tables: seq<seq<Huft>>, places: seq<Place>, u: seq<nat>, h: int, k: nat, i: nat)
    requires Entering(cs, tables, places, u, h, k, i) && k > places[u[h]].w + cs.l && i < Pow2(places[u[h]].w + cs.l)
    ensures forall t :: 0 <= t < |places| ==> places[t].w != places[u[h]].w + cs.l || places[t].pre != i
  {
    hide Pow2, Rev, Low, Shr, LenFrom, Beyond, First, Offset, Filled;
    var d := places[u[h]].w + cs.l;
    forall t | 0 <= t < |places| && places[t].w == d ensures places[t].pre != i {
      if t in u[..h + 1] {
        var j :| 0 <= j <= h && u[j] == t;
        WidthsGrow(cs, tables, places, u, h, i, j, h);
      } else if places[t].pre == i {
        PaddedHead(d, cs.g, i);
        MulSucc(Rev(d, i), Pow2(cs.g - d));
      }
    }
  }

  /** Once every code has been entered, every prefix that goes on has its table. */
  lemma AllMade(cs: CodeSet, tables: seq<seq<Huft>>, places: seq<Place>)
    requires ValidSet(cs) && AllFilled(cs, tables, places)
    ensures AllThere(cs, places)
  {
    hide Pow2, Rev, Low, LenFrom, LenOf, Beyond, First, Filled;
    forall h: nat, top: nat | Beyond(cs.c, h * cs.l) <= top < Pow2(h * cs.l)
    && h * cs.l < cs.g ensures Has(places, h * cs.l, top) {
      var w := h * cs.l;
      var str := Rev(w, top);
      RevRev(w, top);
      LowSmall(w, top);
      GoesOn(cs, w, str);
      var t := TableAtLevel(cs, tables, places, h, str);
      LowSmall(w, str);
    }
  }

  lemma FirstBeyond(c: seq<nat>, k: nat)
    requires 0 < k < |c|
    ensures First(c, k) + c[k] == Beyond(c, k)
  {
  }

  /** From one code length to the next; the longest codes leave room for
      themselves. */
  lemma NextLength(cs: CodeSet, k: nat)
    requires ValidSet(cs) && 0 < k < cs.g
    ensures First(cs.c, k + 1) == 2 * Beyond(cs.c, k) && First(cs.c, k) + cs.c[k] == Beyond(cs.c, k)
    ensures First(cs.c, k + 1) <= Beyond(cs.c, k + 1)
    ensures Offset(cs.c, k + 1) == Offset(cs.c, k) + cs.c[k]
    ensures Pow2(k + 1) == 2 * Pow2(k)
    ensures Beyond(cs.c, k) < Pow2(k)
  {
    BeyondGrows(cs.c, k, cs.g);
    if Beyond(cs.c, k) >= Pow2(k) {
      MulMono(Pow2(k), Beyond(cs.c, k), Pow2(cs.g - k));
      Pow2Add(k, cs.g - k);
    }
  }

  /** The backwards increment steps to the next code in order. */
  lemma StepsUp(k: nat, g: nat, i0: nat, i1: nat)
    requires k <= g && i0 < Pow2(k)
    requires Rev(k, i0) + 1 < Pow2(k) && i1 == Rev(k, Rev(k, i0) + 1)
    ensures i1 < Pow2(k) && Rev(k, i1) == Rev(k, i0) + 1 && Rev(g, i1) == Rev(g, i0) + Pow2(g - k)
  {
    hide Pow2, Low;
    PaddedHead(k, g, i0);
    MulSucc(Rev(k, i0), Pow2(g - k));
    RevRev(k, Rev(k, i0) + 1);
    LowSmall(k, Rev(k, i0) + 1);
    PaddedHead(k, g, i1);
  }

  lemma LastCode(k: nat, g: nat, i0: nat)
    requires k <= g && i0 < Pow2(k) && Rev(k, i0) + 1 == Pow2(k)
    ensures Rev(g, i0) + Pow2(g - k) == Pow2(g)
  {
    hide Pow2, Rev;
    PaddedHead(k, g, i0);
    MulSucc(Rev(k, i0), Pow2(g - k));
    Pow2Add(k, g - k);
  }

  /** The first code below a prefix is a shortest one. */
  lemma FirstIsShortest(cs: CodeSet, w: nat, k: nat, i: nat)
    requires ValidSet(cs) && CodeAt(cs.c, k, i) && w <= k
    ensures LenOf(cs.c, Low(w, i)) <= k
  {
    var pre := Low(w, i);
    LenFinds(cs.c, cs.g, pre);
    if LenOf(cs.c, pre) > k {
      PrefixFree(cs.c, LenOf(cs.c, pre), k, pre);
      PaddedHead(w, k, pre);
      RevLow(w, i);
      RevHead(w, k, i);
    }
  }

  lemma EnteredCode(cs: CodeSet, junk: (nat, nat) -> Huft, tables: seq<seq<Huft>>, places: seq<Place>,
                    u: seq<nat>, x: seq<nat>, h: int, w: nat, k: nat, i: nat, filled: seq<Huft>, r: Huft)
    requires SoundState(cs, junk, tables, places, u, x, h, w) && 0 <= h && w < k <= w + cs.l
    requires Entering(cs, tables, places, u, h, k, i) && places[u[h]].width <= cs.l
    requires |filled| == |tables[u[h]]| && LeafOK(cs, Position(cs.c, i), k - w, r)
    requires forall y :: 0 <= y < |filled| ==>
               filled[y] == if Low(k - w, y) == Shr(w, i) then r else tables[u[h]][y]
    ensures SoundState(cs, junk, tables[u[h] := filled], places, u, x, h, w)
    ensures Open(cs, tables[u[h] := filled], places, u, h, i)
    ensures Closed(cs, tables[u[h] := filled], places, u, h, Rev(cs.g, i))
    ensures Filled(cs, tables[u[h] := filled], places, Rev(cs.g, i) + Pow2(cs.g - k))
  {
    FitsOrFull(cs, places[u[h]], k, i);
    FillKeeps(cs, tables, places, u, h, k, i, filled, r);
    OpenKeeps(cs, tables, places, u, h, i, filled);
  }

  /** Rewriting the top table of the stack leaves the stack standing. */
  lemma OpenKeeps(cs: CodeSet, tables: seq<seq<Huft>>, places: seq<Place>, u: seq<nat>, h: int, i: nat,
                  filled: seq<Huft>)
    requires ValidSet(cs) && Shape(cs, tables, places) && 0 <= h && Open(cs, tables, places, u, h, i)
    requires |filled| == |tables[u[h]]|
    ensures Shape(cs, tables[u[h] := filled], places)
    ensures Open(cs, tables[u[h] := filled], places, u, h, i)
  {
    var tables' := tables[u[h] := filled];
    forall j | 0 <= j < h
      ensures HangsBelow(cs, tables', places, u[j], u[j + 1])
    {
      WidthsGrow(cs, tables, places, u, h, i, j, h);
      assert HangsBelow(cs, tables, places, u[j], u[j + 1]);
    }
  }

  lemma ExtendsBuilt(cs: CodeSet, tables: seq<seq<Huft>>, places: seq<Place>, u: seq<nat>, h: int, i: nat,
                     m': Place, parent: seq<Huft>, fresh': seq<Huft>)
    requires Shape(cs, tables, places) && 0 <= h && h + 1 < |u| && u[h] < |places|
    requires m'.w == places[u[h]].w + cs.l && m'.pre == i && PlaceOK(cs, m') && |fresh'| == Pow2(m'.width)
    requires Shr(places[u[h]].w, i) < |tables[u[h]]|
    requires parent == tables[u[h]][Shr(places[u[h]].w, i) := Huft(m'.width, cs.l, |tables|)]
    ensures Extends(cs, tables, places, u, h, i, m', tables[u[h] := parent] + [fresh'], places + [m'],
            u[h + 1 := |tables|])
  {
  }

  /** The first code below a prefix leaves room for the rest of its length. */
  lemma RoomAtStart(cs: CodeSet, k: nat, w: nat, i: nat, a: nat)
    requires w <= k && i < Pow2(w) && a + 1 + Rev(k, i) == Beyond(cs.c, k)
    ensures Room(cs.c, Rev(w, i), w, k - w) == Pow2(k - w) - (a + 1)
  {
    PaddedHead(w, k, i);
    MulSucc(Rev(w, i), Pow2(k - w));
  }

  lemma WidthFits(cs: CodeSet, w: nat, i: nat, j: nat)
    requires ValidSet(cs) && i < Pow2(w) && 0 < j && w + j <= cs.g
    requires j >= cs.l || Room(cs.c, Rev(w, i), w, j) <= 0
    ensures PlaceOK(cs, Place(w, i, if j > cs.l then cs.l else j, j))
  {
  }

  /** The root table is exactly `l` bits wide. */
  lemma RootWidth(cs: CodeSet, k: nat, j: nat)
    requires ValidSet(cs) && 0 < k <= j <= cs.g && k <= cs.l
    requires j <= cs.l && (j >= cs.l || Room(cs.c, Rev(0, 0), 0, j) <= 0)
    ensures j == cs.l
  {
    if j < cs.l {
      BeyondGrows(cs.c, j, cs.g);
      Pow2Add(j, cs.g - j);
      MulMono(Pow2(j), Beyond(cs.c, j), Pow2(cs.g - j));
    }
  }

  // ----------------------------------------------------------- the whole thing

  /** `cs` is the code set of the lengths `b`, filled up with dummy codes of
      the longest length. */
  ghost predicate Describes(cs: CodeSet, b: seq<nat>) {
    |cs.c| == BMAX + 1 && 0 < cs.g <= BMAX && cs.n == |b|
    && (forall k :: 0 <= k <= BMAX && k != cs.g ==> cs.c[k] == Count(b, k))
    && cs.c[cs.g] >= Count(b, cs.g) > 0
    && (forall k :: cs.g < k <= BMAX ==> Count(b, k) == 0)
    && Placed(b, cs.v, |b|)
  }

  /** Tables built for `b`: every reachable slot filled. */
  ghost predicate Built(cs: CodeSet, b: seq<nat>, al: Alphabet, tables: seq<seq<Huft>>, places: seq<Place>,
                        junk: (nat, nat) -> Huft) {
    ValidSet(cs) && Describes(cs, b) && cs.al == al
    && AllFilled(cs, tables, places) && WidthsExplained(cs, places) && AtLevels(cs, places)
    && UntouchedIn(tables, places, junk)
  }

  /** What huft_build makes tables from: the lengths filled up with dummy codes,
      and the bits of a lookup, `m` if the code lengths allow. */
  ghost predicate Prepared(cs: CodeSet, b: seq<nat>, al: Alphabet, m: nat) {
    ValidSet(cs) && Describes(cs, b) && cs.al == al
    && (m <= cs.l || cs.l == cs.g)
    && (cs.l <= m || forall k :: 0 < k < cs.l ==> Count(b, k) == 0)
    && exists k :: 0 < k <= cs.l && cs.c[k] > 0
  }

  /** Lengths and lookup width determine the code, dummies included, and what the
      tables take. */
  lemma PreparedAlike(cs: CodeSet, ds: CodeSet, b: seq<nat>, m: nat)
    requires Prepared(cs, b, cs.al, m) && Prepared(ds, b, ds.al, m)
    ensures Alike(cs, ds) && Entries(cs) == Entries(ds)
  {
    hide Pow2, Beyond, Count, Placed, EntriesFrom;
    assert cs.g == ds.g;
    var g := cs.g;
    LastCount(cs.c, ds.c, g);
    assert cs.c == ds.c;
    var k :| 0 < k <= cs.l && cs.c[k] > 0;
    var j :| 0 < j <= ds.l && ds.c[j] > 0;
    assert cs.l == ds.l;
    EntriesAlike(cs, ds, 0);
  }

  /** In a complete code the last count follows from the others. */
  lemma LastCount(c: seq<nat>, d: seq<nat>, g: nat)
    requires Complete(c, g) && Complete(d, g) && |c| == |d| && forall k :: 0 <= k < g ==> c[k] == d[k]
    ensures c[g] == d[g]
  {
    BeyondAlike(c, d, g - 1);
  }

  lemma {:induction false} BeyondAlike(c: seq<nat>, d: seq<nat>, k: nat)
    requires k < |c| == |d| && forall j :: 0 <= j <= k ==> c[j] == d[j]
    ensures Beyond(c, k) == Beyond(d, k)
  {
    if k > 0 { BeyondAlike(c, d, k - 1); }
  }

  /** The lengths make a code, with dummies if they leave room. */
  ghost predicate Codable(b: seq<nat>) {
    ValidLengths(b) && !AllZero(b) && Kraft(b) <= Pow2(BMAX)
  }

  /** How many table entries huft_build takes for the lengths `b`. */
  ghost function Needed(b: seq<nat>, m: nat): nat {
    if Codable(b) && exists cs: CodeSet :: Prepared(cs, b, cs.al, m) then
      var cs: CodeSet :| Prepared(cs, b, cs.al, m);
      Entries(cs)
    else 0
  }

  lemma NeededIs(b: seq<nat>, m: nat, cs: CodeSet)
    requires Codable(b) && Prepared(cs, b, cs.al, m)
    ensures Needed(b, m) == Entries(cs)
  {
    hide Describes, Complete, EntriesFrom;
    var ds: CodeSet :| Prepared(ds, b, ds.al, m) && Needed(b, m) == Entries(ds);
    PreparedAlike(cs, ds, b, m);
  }

  /** Given code lengths, makes the tables that decode them, with at most about
      `m` bits looked up at a time; they take `Entries(cs)` table entries. */
  method HuftBuild(b: seq<nat>, al: Alphabet, m: nat, memory: nat, junk: (nat, nat) -> Huft)
    returns (rc: int, tables: seq<seq<Huft>>, bits: nat, left: nat, ghost cs: CodeSet, ghost places: seq<Place>)
    requires ValidLengths(b)
    ensures AllZero(b) ==> rc == Z_OK && tables == [] && bits == 0 && left == memory
    ensures !AllZero(b) ==> (rc == Z_DATA_ERROR <==> Kraft(b) > Pow2(BMAX))
    ensures !AllZero(b) && Kraft(b) <= Pow2(BMAX) ==>
              Prepared(cs, b, al, m) && (rc == Z_MEM_ERROR <==> memory < Entries(cs))
    ensures !AllZero(b) && Kraft(b) <= Pow2(BMAX) && rc != Z_MEM_ERROR ==>
              rc == (if Kraft(b) < Pow2(BMAX) && !(forall i :: 0 <= i < |b| ==> b[i] <= 1) then Z_BUF_ERROR else Z_OK)
    ensures Kraft(b) == Pow2(BMAX) ==> cs.c == Counts(b)
    ensures !AllZero(b) && (rc == Z_OK || rc == Z_BUF_ERROR) ==>
              Built(cs, b, al, tables, places, junk) && bits == cs.l && left == memory - Entries(cs)
  {
    hide Kraft, Count, Beyond, First, Pow2, Filled, Placed, WidthsExplained, AtLevels, UntouchedIn, Shape, Entries,
         Accounts, Spent;
    tables, places, left := [], [], memory;
    cs := CodeSet([], 0, 0, [], 0, al);
    var counts := CountLengths(b);
    var c := counts[..];
    ZeroCount(b);
    if c[0] == |b| {
      KraftOfNone(b);
      return Z_OK, [], 0, memory, cs, [];
    }
    SomeLength(b);
    var k := Shortest(c);
    var g := Longest(c);
    bits := if m < k then k else m;
    bits := if bits > g then g else bits;
    var y := Deficit(c, k, g);
    forall j | g < j <= BMAX ensures Count(b, j) == 0 { assert c[j] == Counts(b)[j]; }
    KraftAtMax(b, g);
    if y < 0 {
      rc := Z_DATA_ERROR;
      return;
    }
    counts[g] := counts[g] + y;
    var codes := Arrange(b, al, counts[..], g, bits, y);
    cs := codes;
    var builder := new Builder(codes, junk, memory);
    var ok := builder.Build(k);
    left := builder.left;
    if !ok {
      rc := Z_MEM_ERROR;
      return;
    }
    tables, places := builder.tables, builder.places;
    OnlyOneBit(b, g);
    rc := if y != 0 && g != 1 then Z_BUF_ERROR else Z_OK;
  }

  lemma SomeLength(b: seq<nat>)
    requires ValidLengths(b) && !AllZero(b)
    ensures exists k :: 0 < k <= BMAX && Counts(b)[k] > 0
  {
    var i :| 0 <= i < |b| && b[i] != 0;
    RankBelow(b, i);
    assert Counts(b)[b[i]] > 0;
  }

  lemma OnlyOneBit(b: seq<nat>, g: nat)
    requires ValidLengths(b) && 0 < g <= BMAX && Count(b, g) > 0
    requires forall k :: g < k <= BMAX ==> Count(b, k) == 0
    ensures g == 1 <==> forall i :: 0 <= i < |b| ==> b[i] <= 1
  {
    forall i | 0 <= i < |b| ensures b[i] <= g { RankBelow(b, i); }
    HasOne(b, g);
  }

  lemma {:induction false} HasOne(b: seq<nat>, g: nat)
    requires Count(b, g) > 0
    ensures g in b
  {
    if b[|b| - 1] != g { HasOne(b[..|b| - 1], g); }
  }

  /** Orders the symbols and completes the counts. */
  method Arrange(b: seq<nat>, al: Alphabet, c: seq<nat>, g: nat, l: nat, y: nat) returns (cs: CodeSet)
    requires ValidLengths(b) && 0 < l <= g <= BMAX
    requires c == Counts(b)[g := Count(b, g) + y] && Count(b, g) > 0
    requires forall k :: g < k <= BMAX ==> Count(b, k) == 0
    requires y == Pow2(g) - Beyond(Counts(b), g)
    ensures cs.g == g && cs.l == l && cs.al == al && cs.c == c && ValidSet(cs) && Describes(cs, b)
  {
    var x := Offsets(c, g);
    forall k | 0 < k <= g ensures Offset(c, k) == Offset(Counts(b), k) { OffsetSame(c, Counts(b), g, k); }
    var v := new nat[N_MAX];
    OrderSymbols(b, x, v, g);
    BeyondSame(c, Counts(b), g, g - 1);
    cs := CodeSet(c, g, l, v[..], |b|, al);
  }

  lemma {:induction false} OffsetSame(c: seq<nat>, c': seq<nat>, g: nat, k: nat)
    requires |c| == |c'| && k <= g && forall j :: 0 <= j < |c| && j != g ==> c[j] == c'[j]
    ensures Offset(c, k) == Offset(c', k)
  {
    if k > 1 { OffsetSame(c, c', g, k - 1); }
  }

  lemma {:induction false} BeyondSame(c: seq<nat>, c': seq<nat>, g: nat, k: nat)
    requires |c| == |c'| && k < g && forall j :: 0 <= j < |c| && j != g ==> c[j] == c'[j]
    ensures Beyond(c, k) == Beyond(c', k)
  {
    if k > 0 { BeyondSame(c, c', g, k - 1); }
  }
}
