// The stack of tables under construction: which tables are still open, where
// each hangs below its parent, and how filling a slot or starting a table
// keeps every finished slot correct.
module TableStack {
  import opened Words
  import opened Canonical
  import opened HuffmanTables

  /** Table `child` hangs below table `t`, at the slot named by its prefix. */
  ghost predicate HangsBelow(cs: CodeSet, tables: seq<seq<Huft>>, places: seq<Place>, t: nat, child: nat)
    requires Shape(cs, tables, places) && t < |places| && child < |places|
  {
    var m, m' := places[t], places[child];
    var x := Shr(m.w, m'.pre);
    m.jb == cs.l && m'.w == m.w + cs.l && x < |tables[t]|
    && Low(m.w, m'.pre) == m.pre
    && LinkOK(cs, places, t, m, m'.pre, tables[t][x]) && tables[t][x].more == child
  }

  /** Levels 0..h of the stack hold the tables that code `i` passes through. */
  ghost predicate Open(cs: CodeSet, tables: seq<seq<Huft>>, places: seq<Place>, u: seq<nat>, h: int, i: nat)
    requires Shape(cs, tables, places)
  {
    -1 <= h < |u|
    && (h >= 0 ==> u[0] == 0)
    && (forall j :: 0 <= j <= h ==> u[j] < |places| && Low(places[u[j]].w, i) == places[u[j]].pre)
    && (forall j :: 0 <= j < h ==> HangsBelow(cs, tables, places, u[j], u[j + 1]))
  }

  /** Where the codes below a table end, in code order. */
  function End(cs: CodeSet, m: Place): nat
    requires PlaceOK(cs, m)
  {
    (Rev(m.w, m.pre) + 1) * Pow2(cs.g - m.w)
  }

  /** Every table that is not on the stack lies wholly before `limit`. */
  ghost predicate Closed(cs: CodeSet, tables: seq<seq<Huft>>, places: seq<Place>, u: seq<nat>, h: int, limit: nat)
    requires Shape(cs, tables, places) && -1 <= h < |u|
  {
    forall t :: 0 <= t < |places| && t !in u[..h + 1] ==> End(cs, places[t]) <= limit
  }

  // ------------------------------------------------------------ order facts

  lemma SlotBeforeEnd(cs: CodeSet, m: Place, x: nat)
    requires PlaceOK(cs, m) && x < Pow2(m.jb)
    ensures Rev(cs.g, SlotBits(m, x)) < End(cs, m)
  {
    hide Pow2, Rev, Low, Shr, LenFrom, Beyond, First, Offset;
    SlotSmall(cs, m, x);
    RevHead(m.w, cs.g, SlotBits(m, x));
    RevLow(m.w, SlotBits(m, x));
  }

  /** A code of `k` bits covers the interval from its own value up to the next
      code of that length. */
  lemma CodeInterval(g: nat, k: nat, i: nat, str: nat)
    requires k <= g && i < Pow2(k)
    ensures Rev(g, i) <= Rev(g, str) < Rev(g, i) + Pow2(g - k) <==> Low(k, str) == i
  {
    hide Pow2, Rev, Low, Shr, LenFrom, Beyond, First, Offset;
    if Low(k, str) == i {
      InInterval(g, k, i, str);
    } else if Rev(g, i) <= Rev(g, str) < Rev(g, i) + Pow2(g - k) {
      PaddedHead(k, g, i);
      MulSucc(Rev(k, i), Pow2(g - k));
      SameHead(k, g, str, Rev(k, i));
      RevInjective(k, str, i);
      LowSmall(k, i);
    }
  }

  lemma InInterval(g: nat, k: nat, i: nat, str: nat)
    requires k <= g && i < Pow2(k) && Low(k, str) == i
    ensures Rev(g, i) <= Rev(g, str) < Rev(g, i) + Pow2(g - k)
  {
    hide Pow2, Rev, Low, Shr, LenFrom, Beyond, First, Offset;
    PaddedHead(k, g, i);
    MulSucc(Rev(k, i), Pow2(g - k));
    RevLow(k, str);
    RevHead(k, g, str);
  }

  // ---------------------------------------------------------- filling slots

  /** The slots of table `m` that take the entry for code `i` of `k` bits. */
  lemma SlotMatches(cs: CodeSet, m: Place, k: nat, i: nat, x: nat)
    requires PlaceOK(cs, m) && x < Pow2(m.jb) && m.w <= k <= m.w + m.jb
    requires Low(m.w, i) == m.pre && i < Pow2(k)
    ensures Low(k - m.w, x) == Shr(m.w, i) <==> Low(k, SlotBits(m, x)) == i
  {
    hide Pow2, Rev, Low, Shr, LenFrom, Beyond, First, Offset;
    SlotSmall(cs, m, x);
    LowSplit(m.w, k - m.w, SlotBits(m, x));
    SplitAt(m.w, i);
    if Low(k, SlotBits(m, x)) == i && Low(k - m.w, x) != Shr(m.w, i) {
      Recombine(m.w, Low(k - m.w, x), m.pre);
    }
  }

  /** An ancestor's slot in the interval of the current code is the slot that
      holds the link towards the current table. */
  lemma AncestorSlot(cs: CodeSet, tables: seq<seq<Huft>>, places: seq<Place>, t: nat, child: nat, k: nat, i: nat,
                     x: nat)
    requires ValidSet(cs) && Shape(cs, tables, places) && t < |places| && child < |places|
    requires HangsBelow(cs, tables, places, t, child)
    requires CodeAt(cs.c, k, i) && i < Pow2(k) && k <= cs.g && places[child].w < k
    requires Low(places[child].w, i) == places[child].pre
    requires x < Pow2(places[t].jb) && x < |tables[t]|
             && Rev(cs.g, i) <= Rev(cs.g, SlotBits(places[t], x)) < Rev(cs.g, i) + Pow2(cs.g - k)
    ensures SlotOK(cs, places, t, places[t], SlotBits(places[t], x), tables[t][x])
  {
    hide Pow2, Rev, Low, Shr, LenFrom, Beyond, First, Offset;
    var m, m' := places[t], places[child];
    var str := SlotBits(m, x);
    SlotSmall(cs, m, x);
    CodeInterval(cs.g, k, i, str);
    LowLow(m'.w, k - m'.w, str);
    LowSmall(m'.w, str);
    assert str == m'.pre;
    PrefixDecides(cs, m'.w, i);
    LenIs(cs.c, k, i);
  }

  /** The code being entered, and the table it is entered in. */
  ghost predicate Entering(cs: CodeSet, tables: seq<seq<Huft>>, places: seq<Place>, u: seq<nat>, h: int, k: nat, i: nat)
  {
    ValidSet(cs) && Shape(cs, tables, places)
    && 0 <= h < |u| && Open(cs, tables, places, u, h, i)
    && Closed(cs, tables, places, u, h, Rev(cs.g, i))
    && Filled(cs, tables, places, Rev(cs.g, i))
    && CodeAt(cs.c, k, i) && i < Pow2(k) && k <= cs.g
  }

  /** A slot outside the current table that the current code might concern. */
  lemma OtherSlot(cs: CodeSet, tables: seq<seq<Huft>>, places: seq<Place>, u: seq<nat>, h: int, k: nat, i: nat, t: nat,
                  x: nat)
    requires Entering(cs, tables, places, u, h, k, i) && places[u[h]].w < k
    requires t < |places| && t != u[h] && x < Pow2(places[t].jb) && x < |tables[t]|
    requires Rev(cs.g, SlotBits(places[t], x)) < Rev(cs.g, i) + Pow2(cs.g - k)
    ensures SlotOK(cs, places, t, places[t], SlotBits(places[t], x), tables[t][x])
  {
    hide Pow2, Rev, Low, Shr, LenFrom, Beyond, First, Offset;
    SlotBeforeEnd(cs, places[t], x);
    if Rev(cs.g, SlotBits(places[t], x)) >= Rev(cs.g, i) {
      assert t in u[..h + 1];
      var j :| 0 <= j <= h && u[j] == t;
      assert HangsBelow(cs, tables, places, u[j], u[j + 1]);
      WidthsGrow(cs, tables, places, u, h, i, j + 1, h);
      AncestorSlot(cs, tables, places, t, u[j + 1], k, i, x);
    }
  }

  lemma {:induction false} WidthsGrow(cs: CodeSet, tables: seq<seq<Huft>>, places: seq<Place>, u: seq<nat>, h: int,
                                      i: nat, a: int, b: int)
    requires Shape(cs, tables, places) && Open(cs, tables, places, u, h, i)
    requires 0 <= a <= b <= h
    ensures cs.l > 0 ==> places[u[a]].w + (b - a) <= places[u[b]].w
    decreases b - a
  {
    hide Pow2, Rev, Low, Shr, LenFrom, Beyond, First, Offset;
    if a < b {
      WidthsGrow(cs, tables, places, u, h, i, a, b - 1);
      assert HangsBelow(cs, tables, places, u[b - 1], u[b]);
    }
  }

  /** Entering a code in the current table finishes every slot up to the next
      code in order. */
  lemma FillKeeps(cs: CodeSet, tables: seq<seq<Huft>>, places: seq<Place>, u: seq<nat>, h: int, k: nat, i: nat,
                  q: seq<Huft>, r: Huft)
    requires Entering(cs, tables, places, u, h, k, i)
    requires places[u[h]].w < k <= places[u[h]].w + places[u[h]].jb
    requires |q| == |tables[u[h]]|
    requires LeafOK(cs, Position(cs.c, i), k - places[u[h]].w, r)
    requires forall x :: 0 <= x < |q| ==>
               q[x] == if Low(k - places[u[h]].w, x) == Shr(places[u[h]].w, i) then r else tables[u[h]][x]
    ensures Shape(cs, tables[u[h] := q], places)
    ensures Filled(cs, tables[u[h] := q], places, Rev(cs.g, i) + Pow2(cs.g - k))
  {
    hide Pow2, Rev, Low, Shr, LenFrom, Beyond, First, Offset;
    var tables' := tables[u[h] := q];
    forall t, x | 0 <= t < |places| && 0 <= x < Pow2(places[t].jb) && x < |tables'[t]|
      && Rev(cs.g, SlotBits(places[t], x)) < Rev(cs.g, i) + Pow2(cs.g - k)
      ensures SlotOK(cs, places, t, places[t], SlotBits(places[t], x), tables'[t][x])
    {
      if t == u[h] {
        CurrentSlot(cs, places, t, k, i, x, r);
        SlotMatches(cs, places[t], k, i, x);
        CodeInterval(cs.g, k, i, SlotBits(places[t], x));
      } else {
        OtherSlot(cs, tables, places, u, h, k, i, t, x);
      }
    }
  }

  lemma CurrentSlot(cs: CodeSet, places: seq<Place>, t: nat, k: nat, i: nat, x: nat, r: Huft)
    requires ValidSet(cs) && t < |places| && PlaceOK(cs, places[t]) && x < Pow2(places[t].jb)
    requires CodeAt(cs.c, k, i) && i < Pow2(k) && places[t].w < k <= places[t].w + places[t].jb
    requires LeafOK(cs, Position(cs.c, i), k - places[t].w, r)
    ensures Low(k, SlotBits(places[t], x)) == i ==>
              SlotOK(cs, places, t, places[t], SlotBits(places[t], x), r)
  {
    hide Pow2, Rev, Low, Shr, LenFrom, Beyond, First, Offset;
    var str := SlotBits(places[t], x);
    if Low(k, str) == i {
      SameCode(cs, k, i, str);
    }
  }

  lemma SameCode(cs: CodeSet, k: nat, i: nat, str: nat)
    requires CodeAt(cs.c, k, i) && i < Pow2(k) && Low(k, str) == i
    ensures LenOf(cs.c, str) == k && Position(cs.c, str) == Position(cs.c, i)
  {
    hide Pow2, Rev, Low, Shr, LenFrom, Beyond, First, Offset;
    LowSmall(k, i);
    LenIs(cs.c, k, i);
    LenLocal(cs.c, k, i, str);
    RevLow(k, str);
  }

  // ------------------------------------------------------- starting a table

  /** When a code outgrows the current table, it is the first one below its
      prefix: the bits beyond the prefix are all zero. */
  lemma StartsSubtree(cs: CodeSet, tables: seq<seq<Huft>>, places: seq<Place>, u: seq<nat>, h: int, k: nat, i: nat)
    requires Entering(cs, tables, places, u, h, k, i) && k > places[u[h]].w + cs.l
    ensures places[u[h]].jb == cs.l && i < Pow2(places[u[h]].w + cs.l)
    ensures Low(places[u[h]].w + cs.l, i) == i
  {
    hide Pow2, Rev, Low, Shr, LenFrom, Beyond, First, Offset;
    var t, m := u[h], places[u[h]];
    var d := m.w + cs.l;
    FitsOrFull(cs, m, k, i);
    var x, str := Low(cs.l, Shr(m.w, i)), Low(d, i);
    SlotOf(m, i);
    LowSmall(d, str);
    PaddedHead(d, cs.g, str);
    RevLow(d, i);
    RevSplit(d, cs.g - d, i);
    if Rev(cs.g, str) < Rev(cs.g, i) {
      Pow2Mono(cs.l, m.width);
      NoFinishedSlot(cs, tables, places, u, h, k, i, tables[t][x]);
    }
    assert Rev(cs.g - d, Shr(d, i)) == 0;
    ZeroTail(d, k, cs.g, i);
  }

  lemma ZeroTail(d: nat, k: nat, g: nat, i: nat)
    requires d <= k <= g && i < Pow2(k) && Rev(g - d, Shr(d, i)) == 0
    ensures i < Pow2(d) && Low(d, i) == i
  {
    hide Pow2, Rev, Low, Shr, LenFrom, Beyond, First, Offset;
    Pow2Mono(k, g);
    ShrBelow(d, g - d, i);
    ReversedZero(g - d, Shr(d, i));
    NoHighBits(d, i);
  }

  lemma ShrBelow(a: nat, b: nat, i: nat)
    requires i < Pow2(a + b)
    ensures Shr(a, i) < Pow2(b)
  {
    hide Pow2, Rev, Low, Shr, LenFrom, Beyond, First, Offset;
    LowSmall(a + b, i);
    LowLow(a, b, i);
  }

  lemma ReversedZero(n: nat, i: nat)
    requires i < Pow2(n) && Rev(n, i) == 0
    ensures i == 0
  {
    hide Pow2, Rev, Low, Shr, LenFrom, Beyond, First, Offset;
    RevZero(n);
    RevInjective(n, i, 0);
    LowSmall(n, i);
    LowSmall(n, 0);
  }

  lemma NoHighBits(d: nat, i: nat)
    requires Shr(d, i) == 0
    ensures i < Pow2(d) && Low(d, i) == i
  {
    hide Pow2, Rev, Low, Shr, LenFrom, Beyond, First, Offset;
    SplitAt(d, i);
  }

  /** The slot of a code that has outgrown the table cannot be final yet. */
  lemma NoFinishedSlot(cs: CodeSet, tables: seq<seq<Huft>>, places: seq<Place>, u: seq<nat>, h: int, k: nat, i: nat,
                       e: Huft)
    requires Entering(cs, tables, places, u, h, k, i) && k > places[u[h]].w + cs.l
    requires places[u[h]].jb == cs.l
    ensures !SlotOK(cs, places, u[h], places[u[h]], Low(places[u[h]].w + cs.l, i), e)
  {
    hide Pow2, Rev, Low, Shr, LenFrom, Beyond, First, Offset;
    var m := places[u[h]];
    var d := m.w + cs.l;
    PrefixDecides(cs, d, i);
    LenIs(cs.c, k, i);
    if LinkOK(cs, places, u[h], m, Low(d, i), e) {
      if e.more in u[..h + 1] {
        var j :| 0 <= j <= h && u[j] == e.more;
        WidthsGrow(cs, tables, places, u, h, i, j, h);
      } else {
        RevLow(d, i);
        RevHead(d, cs.g, i);
      }
    }
  }

  /** What allocating a table below the current one does. */
  ghost predicate Extends(cs: CodeSet, tables: seq<seq<Huft>>, places: seq<Place>, u: seq<nat>, h: int, i: nat,
                          m': Place, tables': seq<seq<Huft>>, places': seq<Place>, u': seq<nat>)
    requires Shape(cs, tables, places) && 0 <= h < |u| && u[h] < |places|
  {
    var t, m := u[h], places[u[h]];
    h + 1 < |u| && places' == places + [m'] && u' == u[h + 1 := |tables|]
    && m'.w == m.w + cs.l && m'.pre == i && PlaceOK(cs, m')
    && |tables'| == |tables| + 1 && |tables'[|tables|]| == Pow2(m'.width)
    && (forall t' :: 0 <= t' < |tables| && t' != t ==> tables'[t'] == tables[t'])
    && |tables'[t]| == |tables[t]|
    && (forall x :: 0 <= x < |tables[t]| ==>
          tables'[t][x] == if x == Shr(m.w, i) then Huft(m'.width, cs.l, |tables|) else tables[t][x])
  }

  /** Allocating a table for the current code, below the current table. */
  lemma TableStarts(cs: CodeSet, tables: seq<seq<Huft>>, places: seq<Place>, u: seq<nat>, h: int, k: nat, i: nat,
                    m': Place, tables': seq<seq<Huft>>, places': seq<Place>, u': seq<nat>)
    requires Entering(cs, tables, places, u, h, k, i) && k > places[u[h]].w + cs.l
    requires Extends(cs, tables, places, u, h, i, m', tables', places', u')
    ensures Entering(cs, tables', places', u', h + 1, k, i)
  {
    hide Pow2, Rev, Low, Shr, LenFrom, Beyond, First, Offset;
    StartsSubtree(cs, tables, places, u, h, k, i);
    StackExtends(cs, tables, places, u, h, k, i, m', tables', places', u');
    SlotsExtend(cs, tables, places, u, h, k, i, m', tables', places', u');
  }

  lemma StackExtends(cs: CodeSet, tables: seq<seq<Huft>>, places: seq<Place>, u: seq<nat>, h: int, k: nat, i: nat,
                     m': Place, tables': seq<seq<Huft>>, places': seq<Place>, u': seq<nat>)
    requires Entering(cs, tables, places, u, h, k, i) && k > places[u[h]].w + cs.l
    requires Extends(cs, tables, places, u, h, i, m', tables', places', u')
    requires i < Pow2(places[u[h]].w + cs.l) && places[u[h]].jb == cs.l
    ensures Shape(cs, tables', places') && Open(cs, tables', places', u', h + 1, i)
    ensures Closed(cs, tables', places', u', h + 1, Rev(cs.g, i))
  {
    hide Pow2, Rev, Low, Shr, LenFrom, Beyond, First, Offset;
    HangsNew(cs, tables, places, u, h, i, m', tables', places', u');
    LowSmall(m'.w, i);
    forall j | 0 <= j < h + 1
      ensures HangsBelow(cs, tables', places', u'[j], u'[j + 1])
    {
      if j < h {
        WidthsGrow(cs, tables, places, u, h, i, j, h);
        HangsStill(cs, tables, places, u, h, i, m', tables', places', u', u[j], u[j + 1]);
      }
    }
    ClosedExtends(cs, tables, places, u, h, i, m', tables', places', u');
  }

  lemma ClosedExtends(cs: CodeSet, tables: seq<seq<Huft>>, places: seq<Place>, u: seq<nat>, h: int, i: nat,
                      m': Place, tables': seq<seq<Huft>>, places': seq<Place>, u': seq<nat>)
    requires Shape(cs, tables, places) && 0 <= h < |u| && u[h] < |places| && Shape(cs, tables', places')
    requires Extends(cs, tables, places, u, h, i, m', tables', places', u')
    requires Closed(cs, tables, places, u, h, Rev(cs.g, i))
    ensures Closed(cs, tables', places', u', h + 1, Rev(cs.g, i))
  {
    hide Pow2, Rev, Low, Shr, LenFrom, Beyond, First, Offset;
    assert u'[..h + 2] == u[..h + 1] + [|tables|];
  }

  lemma HangsNew(cs: CodeSet, tables: seq<seq<Huft>>, places: seq<Place>, u: seq<nat>, h: int, i: nat,
                 m': Place, tables': seq<seq<Huft>>, places': seq<Place>, u': seq<nat>)
    requires Shape(cs, tables, places) && 0 <= h < |u| && u[h] < |places|
    requires Extends(cs, tables, places, u, h, i, m', tables', places', u')
    requires i < Pow2(places[u[h]].w + cs.l) && places[u[h]].jb == cs.l
    requires Low(places[u[h]].w, i) == places[u[h]].pre
    ensures Shape(cs, tables', places')
    ensures HangsBelow(cs, tables', places', u[h], |tables|)
  {
    hide Pow2, Rev, Low, Shr, LenFrom, Beyond, First, Offset;
    LinkSlot(cs, places[u[h]], i);
    Pow2Mono(cs.l, places[u[h]].width);
    assert forall t :: 0 <= t < |places| ==> places'[t] == places[t];
  }

  lemma HangsStill(cs: CodeSet, tables: seq<seq<Huft>>, places: seq<Place>, u: seq<nat>, h: int, i: nat,
                   m': Place, tables': seq<seq<Huft>>, places': seq<Place>, u': seq<nat>, t: nat, child: nat)
    requires Shape(cs, tables, places) && 0 <= h < |u| && u[h] < |places| && Shape(cs, tables', places')
    requires Extends(cs, tables, places, u, h, i, m', tables', places', u')
    requires t < |places| && child < |places| && t != u[h] && HangsBelow(cs, tables, places, t, child)
    ensures HangsBelow(cs, tables', places', t, child)
  {
  }

  lemma SlotsExtend(cs: CodeSet, tables: seq<seq<Huft>>, places: seq<Place>, u: seq<nat>, h: int, k: nat, i: nat,
                    m': Place, tables': seq<seq<Huft>>, places': seq<Place>, u': seq<nat>)
    requires Entering(cs, tables, places, u, h, k, i) && k > places[u[h]].w + cs.l
    requires Extends(cs, tables, places, u, h, i, m', tables', places', u')
    requires i < Pow2(places[u[h]].w + cs.l) && places[u[h]].jb == cs.l && Shape(cs, tables', places')
    ensures Filled(cs, tables', places', Rev(cs.g, i))
  {
    hide Pow2, Rev, Low, Shr, LenFrom, Beyond, First, Offset;
    var m := places[u[h]];
    LinkSlot(cs, m, i);
    forall t, x | 0 <= t < |places'| && 0 <= x < Pow2(places'[t].jb) && x < |tables'[t]|
      && Rev(cs.g, SlotBits(places'[t], x)) < Rev(cs.g, i)
      ensures SlotOK(cs, places', t, places'[t], SlotBits(places'[t], x), tables'[t][x])
    {
      if t == |places| {
        SlotSmall(cs, m', x);
        InInterval(cs.g, m'.w, i, SlotBits(m', x));
      } else {
        assert SlotOK(cs, places, t, places[t], SlotBits(places[t], x), tables[t][x]);
      }
    }
  }

  lemma LinkSlot(cs: CodeSet, m: Place, i: nat)
    requires PlaceOK(cs, m) && m.jb == cs.l && i < Pow2(m.w + cs.l) && Low(m.w, i) == m.pre
    ensures Shr(m.w, i) < Pow2(cs.l) && SlotBits(m, Shr(m.w, i)) == i
  {
    hide Pow2, Rev, Low, Shr, LenFrom, Beyond, First, Offset;
    SplitAt(m.w, i);
    LowSmall(m.w + cs.l, i);
    LowLow(m.w, cs.l, i);
  }

  /** Allocating the root table for the first code. */
  lemma RootStarts(cs: CodeSet, root: seq<Huft>, u: seq<nat>, k: nat)
    requires ValidSet(cs) && |root| == Pow2(cs.l) && |u| > 0 && u[0] == 0
    requires CodeAt(cs.c, k, 0) && k <= cs.g
    ensures Entering(cs, [root], [Place(0, 0, cs.l, cs.l)], u, 0, k, 0)
  {
    hide LenFrom, First, Beyond, Offset;
    RevZero(cs.g);
    assert u[..1] == [0];
  }

  // ----------------------------------------------------------- backing up

  /** A table the next code does not pass through is finished. */
  lemma Finished(cs: CodeSet, m: Place, i: nat, i': nat)
    requires PlaceOK(cs, m) && Low(m.w, i) == m.pre && Rev(cs.g, i) <= Rev(cs.g, i')
    requires Low(m.w, i') != m.pre && m.w <= cs.g
    ensures End(cs, m) <= Rev(cs.g, i')
  {
    hide Pow2, Rev, Low, Shr, LenFrom, Beyond, First, Offset;
    if Rev(cs.g, i') < End(cs, m) {
      RevLow(m.w, i);
      RevHead(m.w, cs.g, i);
      SameHead(m.w, cs.g, i', Rev(m.w, i));
      RevInjective(m.w, i, i');
    }
  }

  /** Popping down to the deepest table that the next code passes through. */
  lemma Popped(cs: CodeSet, tables: seq<seq<Huft>>, places: seq<Place>, u: seq<nat>, h: int, i: nat, h': int, i': nat)
    requires ValidSet(cs) && Shape(cs, tables, places) && Open(cs, tables, places, u, h, i)
    requires Closed(cs, tables, places, u, h, Rev(cs.g, i)) && Rev(cs.g, i) <= Rev(cs.g, i')
    requires 0 <= h' <= h && Low(places[u[h']].w, i') == places[u[h']].pre
    requires forall j :: h' < j <= h ==> Low(places[u[j]].w, i') != places[u[j]].pre
    ensures Open(cs, tables, places, u, h', i')
    ensures Closed(cs, tables, places, u, h', Rev(cs.g, i'))
  {
    hide Pow2, Rev, Low, Shr, LenFrom, Beyond, First, Offset;
    PrefixesAgree(cs, tables, places, u, h, i, h', i');
    forall t | 0 <= t < |places| && t !in u[..h' + 1]
      ensures End(cs, places[t]) <= Rev(cs.g, i')
    {
      if t in u[..h + 1] {
        var j :| 0 <= j <= h && u[j] == t;
        assert j > h';
        Finished(cs, places[t], i, i');
      }
    }
  }

  lemma {:induction false} PrefixesAgree(cs: CodeSet, tables: seq<seq<Huft>>, places: seq<Place>, u: seq<nat>, h: int,
                                         i: nat, h': int, i': nat)
    requires Shape(cs, tables, places) && Open(cs, tables, places, u, h, i) && 0 <= h' <= h
    requires Low(places[u[h']].w, i') == places[u[h']].pre
    ensures forall j :: 0 <= j <= h' ==> Low(places[u[j]].w, i') == places[u[j]].pre
    decreases h'
  {
    hide Pow2, Rev, Low, Shr, LenFrom, Beyond, First, Offset;
    if h' > 0 {
      assert HangsBelow(cs, tables, places, u[h' - 1], u[h']);
      LowLow(places[u[h' - 1]].w, cs.l, i');
      PrefixesAgree(cs, tables, places, u, h, i, h' - 1, i');
    }
  }
}
