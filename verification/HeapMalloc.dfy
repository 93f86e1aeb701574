// mALLOc: taking a free chunk whole or in part, and extending the arena.
module HeapMalloc {
  import opened HeapWords
  import opened HeapShape
  import opened HeapTags
  import opened HeapLinks
  import opened HeapState
  import opened HeapSteps
  import opened HeapFree
  import opened HeapSearch

  /** Chunk `c` has come into use and nothing else about the blocks has changed. */
  ghost predicate Allocated(mem: Memory, s: Shape, mem': Memory, s': Shape, c: int, nb: int) {
    !Live(s, c) && Live(s', c) && nb <= s'.size[c] < nb + MINSIZE
    && LiveChange(s, s', NOGAP, c) && Keeps(mem, s, mem', s', NOGAP)
  }

  // ------------------------------------------------------- a chunk as it is

  /** Out of its bin, the chunk is in use. */
  lemma TakenTags(mem0: Memory, s: Shape, mem: Memory, t: Shape, v: int)
    requires Tiled(s) && Tags(mem0, s, v) && v in s.home && v in s.size && SameTags(mem0, mem, t)
    requires t.size == s.size && t.top == s.top && t.home.Keys == s.home.Keys - {v}
    ensures Tags(mem, t, v)
  {
    TagsSame(mem0, mem, s, v);
    GapHome(mem, s, t, v);
  }

  lemma TakenWhole(mem0: Memory, s0: Shape, mem: Memory, s: Shape, v: int, nb: int)
    requires Tiled(s0) && Tiled(s) && v in s0.home && v in s0.size && s.size == s0.size && s.top == s0.top
             && s.home.Keys == s0.home.Keys - {v}
    requires nb <= s0.size[v] < nb + MINSIZE && Keeps(mem0, s0, mem, s, NOGAP)
    ensures Allocated(mem0, s0, mem, s, v, nb)
  {
    NoChunk(s0);
  }

  lemma FreeHead(mem: Memory, s: Shape, v: int)
    requires Tiled(s) && Tags(mem, s, NOGAP) && v in s.home && v in s.size
    ensures Head(mem, v) == s.size[v] + Bit(mem, v) && Bit(mem, v) == 1 && v != s.top && ChunkSize(mem, v) == s.size[v]
    ensures Next(s, v) in s.size && Next(s, v) != s.top
  {
    NoChunk(s);
    HeadTells(mem, s, NOGAP, v);
    NextTells(mem, s, v);
  }

  /** The exact fit: unlinked, then marked as in use. */
  method TakeExact(h: Heap, v: int, vsize: int, ghost nb: int)
    requires h.Valid() && v in h.s.home && v in h.s.size && vsize == h.s.size[v] && nb <= vsize < nb + MINSIZE
    modifies h`mem, h`s
    ensures h.Valid() && Allocated(old(h.mem), old(h.s), h.mem, h.s, v, nb)
    ensures Binned(old(h.s)) && h.s == Taken(old(h.s), v)
  {
    hide Tags, Links, Binned, Tiled, Indexed, Keeps, Allocated, Live, SameTags;
    ghost var mem0, s0 := h.mem, h.s;
    FreeHead(mem0, s0, v);
    OpenGap(mem0, s0, v);
    Unlink(h, v);
    ghost var mem1, s1 := h.mem, h.s;
    TakenTags(mem0, s0, mem1, s1, v);
    SameHead(mem0, mem1, s1, v);
    SetBitAfter(h, v, vsize, 1);
    CloseLive(h.mem, h.s, v);
    KeepsThen(mem0, s0, mem1, s1, h.mem, h.s);
    TakenWhole(mem0, s0, h.mem, h.s, v, nb);
  }

  lemma SameHead(mem: Memory, mem': Memory, s: Shape, v: int)
    requires SameTags(mem, mem', s) && v in s.size
    ensures Head(mem', v) == Head(mem, v) && Bit(mem', v) == Bit(mem, v) && PrevSize(mem', v) == PrevSize(mem, v)
  {
  }

  lemma KeepsThen(mem: Memory, s: Shape, mem1: Memory, s1: Shape, mem2: Memory, s2: Shape)
    requires Keeps(mem, s, mem1, s1, NOGAP) && Keeps(mem1, s1, mem2, s2, NOGAP)
    ensures Keeps(mem, s, mem2, s2, NOGAP)
  {
    KeepsStep(mem, s, mem1, s1, mem2, s2, NOGAP, NOGAP);
  }

  /** The best fit taken whole: marked as in use, then unlinked. */
  method TakeBest(h: Heap, v: int, vsize: int, ghost nb: int)
    requires h.Valid() && v in h.s.home && v in h.s.size && vsize == h.s.size[v] && nb <= vsize < nb + MINSIZE
    modifies h`mem, h`s
    ensures h.Valid() && Allocated(old(h.mem), old(h.s), h.mem, h.s, v, nb)
    ensures Binned(old(h.s)) && h.s == Taken(old(h.s), v)
  {
    hide Tags, Links, Binned, Tiled, Indexed, Keeps, Allocated, Live, SameTags;
    ghost var mem0, s0 := h.mem, h.s;
    FreeHead(mem0, s0, v);
    OpenGap(mem0, s0, v);
    SetBitAfter(h, v, vsize, 1);
    ghost var mem1 := h.mem;
    Unlink(h, v);
    ghost var s1 := h.s;
    TakenTags(mem1, s0, h.mem, s1, v);
    SameHead(mem1, h.mem, s1, v);
    SameHead(mem1, h.mem, s1, v + vsize);
    CloseLive(h.mem, h.s, v);
    KeepsThen(mem0, s0, mem1, s0, h.mem, h.s);
    TakenWhole(mem0, s0, h.mem, h.s, v, nb);
  }

  /** The last remainder taken whole. */
  method TakeLastWhole(h: Heap, v: int, vsize: int, ghost nb: int)
    requires h.Valid() && v in h.s.home && h.s.home[v] == 1 && v in h.s.size && vsize == h.s.size[v]
             && nb <= vsize < nb + MINSIZE
    modifies h`mem, h`s
    ensures h.Valid() && Allocated(old(h.mem), old(h.s), h.mem, h.s, v, nb)
    ensures |old(h.s).bins| == NAV && h.s == Cleared(old(h.s))
  {
    assert |h.s.bins| == NAV;
    hide Tags, Links, Binned, Tiled, Indexed, Keeps, Allocated, Live, SameTags;
    ghost var mem0, s0 := h.mem, h.s;
    FreeHead(mem0, s0, v);
    OpenGap(mem0, s0, v);
    OnlyLast(s0, v);
    ClearLast(h);
    ghost var mem1, s1 := h.mem, h.s;
    TakenTags(mem0, s0, mem1, s1, v);
    SameHead(mem0, mem1, s1, v);
    SetBitAfter(h, v, vsize, 1);
    CloseLive(h.mem, h.s, v);
    KeepsThen(mem0, s0, mem1, s1, h.mem, h.s);
    TakenWhole(mem0, s0, h.mem, h.s, v, nb);
  }

  /** The last-remainder bin holds one chunk at most. */
  lemma OnlyLast(s: Shape, v: int)
    requires Binned(s) && v in s.home && s.home[v] == 1
    ensures Cleared(s).home.Keys == s.home.Keys - {v} && s.bins[1] == [v]
    ensures forall c :: c in s.home && s.home[c] == 1 ==> c == v
  {
    assert v in s.bins[1];
    forall c | c in s.home && s.home[c] == 1 ensures c == v { assert c in s.bins[1]; }
  }

  // --------------------------------------------------- the front of a chunk

  /** Chunk `v`, free so far, is cut: the front is in use, the rest is the only
      last remainder. */
  ghost predicate Split(s: Shape, t: Shape, v: int, nb: int) {
    v in s.size && t.size == Cut(s, v, nb).size && t.top == s.top && t.home.Keys == s.home.Keys - {v} + {v + nb}
    && t.home[v + nb] == 1
  }

  /** The tags once the remainder's have been written. */
  lemma SplitTags(mem: Memory, s: Shape, t: Shape, v: int, nb: int)
    requires Tiled(s) && Tags(mem, s, v) && Split(s, t, v, nb) && v != s.top && Head(mem, v) == nb + Bit(mem, v)
    requires nb % 8 == 0 && MINSIZE <= nb <= s.size[v] - MINSIZE && v + nb !in s.size
    requires Bit(mem, Next(s, v)) == 0 && Next(s, v) in s.size && Next(s, v) !in s.home
    ensures var rs := s.size[v] - nb;
            Tags(mem[v + nb + 4 := rs + 1][v + nb + rs := rs], t, NOGAP)
  {
    hide TagOK;
    var r, rs, u := v + nb, s.size[v] - nb, s.(home := s.home - {v});
    assert ChunkOK(s, v);
    SumAligned(s.size[v], nb);
    SumAligned(v, nb);
    SumAligned(v, -nb);
    TagBit(rs, 1);
    TiledHome(s, u);
    GapHome(mem, s, u, v);
    var mem1 := mem[r + 4 := rs + 1];
    FreshHead(mem, u, v, r, rs + 1);
    FootGap(mem1, u, v, rs);
    var mem2 := mem1[r + rs := rs];
    CutShape(mem2, u, v, nb);
    CutTiled(u, v, nb);
    assert ChunkOK(s, Next(s, v));
    CloseFree(mem2, Cut(u, v, nb), t, r);
  }

  /** Cuts chunk `v`, whose head is written already; the rest becomes the last
      remainder. */
  method SplitRest(h: Heap, v: int, nb: int, rsize: int)
    requires h.Ready(v) && v in h.s.size && v != h.s.top && (forall c :: c in h.s.home && h.s.home[c] == 1 ==> c == v)
    requires v in h.s.home ==> h.s.home[v] == 1
    requires nb % 8 == 0 && nb >= MINSIZE && rsize == h.s.size[v] - nb >= MINSIZE
             && Head(h.mem, v) == nb + Bit(h.mem, v)
    requires Next(h.s, v) in h.s.size && Next(h.s, v) !in h.s.home && Bit(h.mem, Next(h.s, v)) == 0
    modifies h`mem, h`s
    ensures h.Valid() && Split(old(h.s), h.s, v, nb) && Keeps(old(h.mem), old(h.s), h.mem, h.s, v)
    ensures |old(h.s).bins| == NAV && h.s == Remaindered(Cut(old(h.s), v, nb), v + nb)
  {
    ghost var mem0, s0 := h.mem, h.s;
    var r := v + nb;
    assert ChunkOK(s0, v);
    CutOK(s0, v, nb);
    h.s := Cut(s0, v, nb);
    KeepsShape(mem0, s0, h.s, v);
    CutBase(h.mem, s0, h.s, h.binblocks);
    ghost var s1 := h.s;
    assert Live(s1, r);
    LinkLast(h, r);
    ghost var mem1, s2 := h.mem, h.s;
    KeepsStep(mem0, s0, mem0, s1, mem1, s2, v, r);
    SplitShape(s0, s2, v, nb);
    WriteRest(h, s0, v, nb, rsize, mem0);
  }

  lemma CutBase(mem: Memory, s: Shape, t: Shape, binblocks: nat)
    requires Links(mem, s) && Indexed(binblocks, s.bins) && t.bins == s.bins
    ensures Links(mem, t) && Indexed(binblocks, t.bins)
  {
  }

  lemma SplitShape(s: Shape, t: Shape, v: int, nb: int)
    requires v in s.size && |s.bins| == NAV && t == Remaindered(Cut(s, v, nb), v + nb) && v != s.top
    requires forall c :: c in s.home && s.home[c] == 1 ==> c == v
    requires v in s.home ==> s.home[v] == 1
    requires nb > 0
    ensures Split(s, t, v, nb)
  {
  }

  method WriteRest(h: Heap, ghost s0: Shape, v: int, nb: int, rsize: int, ghost mem0: Memory)
    requires h.Base() && Tiled(s0) && Split(s0, h.s, v, nb) && v != s0.top && v + nb !in s0.size && h.s.base == s0.base
    requires Tags(mem0, s0, v) && SameTags(mem0, h.mem, h.s)
    requires nb % 8 == 0 && nb >= MINSIZE && rsize == s0.size[v] - nb >= MINSIZE && Head(mem0, v) == nb + Bit(mem0, v)
    requires Next(s0, v) in s0.size && Next(s0, v) !in s0.home && Bit(mem0, Next(s0, v)) == 0
    requires Keeps(mem0, s0, h.mem, h.s, v)
    modifies h`mem
    ensures h.Valid() && Keeps(mem0, s0, h.mem, h.s, v)
  {
    hide Tags, Links, Binned, Indexed, Keeps;
    NoChunk(s0);
    ghost var mem1, s := h.mem, h.s;
    var r := v + nb;
    RestTags(mem0, mem1, s0, s, v, nb);
    SplitTags(mem1, s0, s, v, nb);
    RestWrites(mem1, s, r, rsize);
    h.mem := h.mem[r + 4 := rsize + 1];
    h.mem := h.mem[r + rsize := rsize];
    KeepsStep(mem0, s0, mem1, s, h.mem, s, v, NOGAP);
  }

  lemma RestTags(mem0: Memory, mem: Memory, s0: Shape, s: Shape, v: int, nb: int)
    requires Tiled(s0) && Split(s0, s, v, nb) && Tags(mem0, s0, v) && SameTags(mem0, mem, s) && Next(s0, v) in s0.size
    ensures Tags(mem, s0, v) && Head(mem, v) == Head(mem0, v) && Bit(mem, Next(s0, v)) == Bit(mem0, Next(s0, v))
  {
    forall c | c in s0.size
      ensures Head(mem, c) == Head(mem0, c) && PrevSize(mem, c) == PrevSize(mem0, c)
    {
      assert c in s.size;
    }
    TagsSame(mem0, mem, s0, v);
  }

  lemma RestWrites(mem: Memory, s: Shape, r: int, rsize: int)
    requires Tiled(s) && Binned(s) && Links(mem, s) && r in s.home && r in s.size && s.size[r] == rsize
    ensures var mem' := mem[r + 4 := rsize + 1][r + rsize := rsize];
            Links(mem', s) && Keeps(mem, s, mem', s, NOGAP)
  {
    assert ChunkOK(s, r);
    NoChunk(s);
    var mem1 := mem[r + 4 := rsize + 1];
    TagKeepsBase(mem, s, r, rsize + 1);
    TagKeepsBase(mem1, s, Next(s, r), rsize);
    KeepsTag(mem, s, r, rsize + 1, NOGAP);
    KeepsTag(mem1, s, r, rsize, NOGAP);
    KeepsStep(mem, s, mem1, s, mem1[r + rsize := rsize], s, NOGAP, NOGAP);
  }

  lemma SplitAllocated(mem0: Memory, s0: Shape, mem: Memory, t: Shape, v: int, nb: int)
    requires Tiled(s0) && Tiled(t) && v in s0.home && v in s0.size && Split(s0, t, v, nb) && Keeps(mem0, s0, mem, t, v)
             && v + nb !in s0.size
    requires MINSIZE <= nb
    ensures Allocated(mem0, s0, mem, t, v, nb)
  {
    NoChunk(s0);
    KeepsStep(mem0, s0, mem0, s0, mem, t, NOGAP, v);
    forall x ensures Live(t, x) <==> Live(s0, x) || x == v { }
  }

  /** Chunk `c`, which is in no bin, comes into use; what is left of it, if that can
      be a chunk, is the last remainder. */
  ghost function FrontOf(s: Shape, c: int, nb: int): Shape
    requires c in s.size && |s.bins| == NAV
  {
    if s.size[c] - nb >= MINSIZE then Remaindered(Cut(s, c, nb), c + nb) else s
  }

  lemma LastFront(s: Shape, v: int, nb: int)
    requires |s.bins| == NAV && v in s.size && s.size[v] - nb >= MINSIZE
    ensures Remaindered(Cut(s, v, nb), v + nb) == FrontOf(Cleared(s), v, nb)
  {
  }

  /** The best fit, split: unlinked, the rest becomes the last remainder. */
  method SplitBest(h: Heap, v: int, nb: int, rsize: int)
    requires h.Valid() && Fits(h.s, v, nb) && nb % 8 == 0 && nb >= MINSIZE && rsize == h.s.size[v] - nb >= MINSIZE
    requires forall c :: c in h.s.home ==> h.s.home[c] != 1
    modifies h`mem, h`s
    ensures h.Valid() && Allocated(old(h.mem), old(h.s), h.mem, h.s, v, nb) && h.s.top == old(h.s).top
    ensures Binned(old(h.s)) && v in old(h.s).home && h.s == FrontOf(Taken(old(h.s), v), v, nb)
  {
    hide Tags, Links, Binned, Indexed, Keeps, Allocated, Live, SameTags;
    ghost var mem0, s0 := h.mem, h.s;
    FreeHead(mem0, s0, v);
    NextTells(mem0, s0, v);
    OpenGap(mem0, s0, v);
    TagBit(nb, 1);
    SetHead(h, v, nb + 1);
    ghost var mem1 := h.mem;
    HeadOnly(mem0, s0, v, nb + 1);
    Unlink(h, v);
    ghost var mem2, s1 := h.mem, h.s;
    TakenTags(mem1, s0, mem2, s1, v);
    SameHead(mem1, mem2, s1, v);
    SameHead(mem1, mem2, s1, v + nb + rsize);
    KeepsThen(mem0, s0, mem1, s0, mem2, s1);
    NoLast(s0, s1, v);
    SplitRest(h, v, nb, rsize);
    SplitTaken(mem0, s0, mem2, s1, h.mem, h.s, v, nb);
  }

  /** Writing a head does not change the in-use bit after the chunk. */
  lemma HeadOnly(mem: Memory, s: Shape, v: int, x: int)
    requires Tiled(s) && v in s.size
    ensures Bit(mem[v + 4 := x], Next(s, v)) == Bit(mem, Next(s, v))
  {
    assert ChunkOK(s, v);
  }

  lemma NoLast(s: Shape, t: Shape, v: int)
    requires Binned(s) && v in s.home && t == Taken(s, v) && forall c :: c in s.home ==> s.home[c] != 1
    ensures forall c :: c in t.home && t.home[c] == 1 ==> c == v
    ensures v !in t.home
  {
    assert t.home == s.home - {v};
  }

  lemma SplitTaken(mem0: Memory, s0: Shape, mem1: Memory, s1: Shape, mem: Memory, t: Shape, v: int, nb: int)
    requires Tiled(s0) && Tiled(t) && Binned(s0) && v in s0.home && v in s0.size && s1 == Taken(s0, v)
             && Keeps(mem0, s0, mem1, s1, NOGAP)
    requires Split(s1, t, v, nb) && Keeps(mem1, s1, mem, t, v) && MINSIZE <= nb <= s0.size[v] - MINSIZE
    ensures Allocated(mem0, s0, mem, t, v, nb)
  {
    NoChunk(s0);
    KeepsStep(mem0, s0, mem1, s1, mem, t, NOGAP, v);
    KeepsMore(mem0, s0, mem, t, v);
    Inside(s0, v, v + nb);
    SplitAllocated(mem0, s0, mem, t, v, nb);
  }

  /** The last remainder, split again. */
  method SplitLast(h: Heap, v: int, nb: int, rsize: int)
    requires h.Valid() && v in h.s.home && h.s.home[v] == 1 && v in h.s.size
    requires nb % 8 == 0 && nb >= MINSIZE && rsize == h.s.size[v] - nb >= MINSIZE
    modifies h`mem, h`s
    ensures h.Valid() && Allocated(old(h.mem), old(h.s), h.mem, h.s, v, nb) && h.s.top == old(h.s).top
    ensures |old(h.s).bins| == NAV && h.s == FrontOf(Cleared(old(h.s)), v, nb)
  {
    hide Tags, Links, Binned, Indexed, Keeps, Allocated, Live, SameTags;
    ghost var mem0, s0 := h.mem, h.s;
    FreeHead(mem0, s0, v);
    NextTells(mem0, s0, v);
    OpenGap(mem0, s0, v);
    TagBit(nb, 1);
    SetHead(h, v, nb + 1);
    ghost var mem1 := h.mem;
    HeadOnly(mem0, s0, v, nb + 1);
    OnlyLast(s0, v);
    SplitRest(h, v, nb, rsize);
    LastFront(s0, v, nb);
    LastAllocated(mem0, s0, mem1, h.mem, h.s, v, nb);
  }

  lemma LastAllocated(mem0: Memory, s0: Shape, mem1: Memory, mem: Memory, t: Shape, v: int, nb: int)
    requires Tiled(s0) && Tiled(t) && v in s0.home && v in s0.size && Keeps(mem0, s0, mem1, s0, NOGAP)
    requires Split(s0, t, v, nb) && Keeps(mem1, s0, mem, t, v) && MINSIZE <= nb <= s0.size[v] - MINSIZE
    ensures Allocated(mem0, s0, mem, t, v, nb)
  {
    NoChunk(s0);
    KeepsStep(mem0, s0, mem1, s0, mem, t, NOGAP, v);
    KeepsMore(mem0, s0, mem, t, v);
    Inside(s0, v, v + nb);
    SplitAllocated(mem0, s0, mem, t, v, nb);
  }

  // ---------------------------------------------------- the last remainder

  /** Chunk `v` is in the bin of its size now; nothing else has changed. */
  ghost predicate Rebinned(s: Shape, t: Shape, v: int) {
    t.size == s.size && t.top == s.top && t.base == s.base && t.home.Keys == s.home.Keys && v in t.home
    && t.home[v] >= 2
    && forall c :: c in s.home && c != v ==> t.home[c] == s.home[c]
  }

  /** The last remainder, if there is one, in the bin of its size. */
  ghost function Passed(s: Shape): Shape {
    if |s.bins| == NAV && s.bins[1] != [] && s.bins[1][0] in s.size && s.size[s.bins[1][0]] >= MINSIZE
    then Entered(Cleared(s), s.bins[1][0])
    else s
  }

  /** The last remainder goes into the bin of its size. */
  method Rebin(h: Heap, v: int, vsize: int)
    requires h.Valid() && v in h.s.home && h.s.home[v] == 1 && v in h.s.size && vsize == h.s.size[v]
    modifies h`mem, h`s, h`binblocks
    ensures h.Valid() && Rebinned(old(h.s), h.s, v) && Keeps(old(h.mem), old(h.s), h.mem, h.s, NOGAP)
    ensures h.s == Passed(old(h.s))
  {
    assert |h.s.bins| == NAV;
    hide Tags, Links, Binned, Indexed, Keeps, SameTags;
    ghost var mem0, s0 := h.mem, h.s;
    NoChunk(s0);
    FreeHead(mem0, s0, v);
    NextTells(mem0, s0, v);
    OpenGap(mem0, s0, v);
    OnlyLast(s0, v);
    assert PrevSize(mem0, Next(s0, v)) == vsize by { FootTells(mem0, s0, v); }
    ClearLast(h);
    ghost var mem1, s1 := h.mem, h.s;
    TakenTags(mem0, s0, mem1, s1, v);
    SameHead(mem0, mem1, s1, v);
    SameHead(mem0, mem1, s1, v + vsize);
    FrontLink(h, v, vsize);
    KeepsStep(mem0, s0, mem1, s1, h.mem, h.s, NOGAP, v);
    Linked1(mem1, h.mem, s1, h.s, v);
  }

  lemma FootTells(mem: Memory, s: Shape, v: int)
    requires Tiled(s) && Tags(mem, s, NOGAP) && v in s.home && v in s.size
    ensures PrevSize(mem, Next(s, v)) == s.size[v]
  {
    NoChunk(s);
    assert TagOK(mem, s, NOGAP, v);
  }

  /** The last remainder is too small, and is out of the way: what fits is as
      before. */
  ghost predicate LastPassed(s: Shape, t: Shape, nb: int) {
    t.size == s.size && t.top == s.top && t.base == s.base && t.home.Keys == s.home.Keys
    && (forall c :: c in t.home ==> t.home[c] != 1)
    && (forall c :: c in s.home && c in s.size && s.home[c] == 1 ==> s.size[c] < nb)
    && (forall c {:trigger Fits(t, c, nb)} {:trigger Fits(s, c, nb)} :: Fits(t, c, nb) <==> Fits(s, c, nb))
    && (forall c :: Fits(s, c, nb) ==> t.home[c] == s.home[c])
  }

  lemma PassedRebinned(s: Shape, t: Shape, v: int, nb: int)
    requires Tiled(s) && Tiled(t) && Binned(s) && v in s.home && s.home[v] == 1 && v in s.size && s.size[v] < nb
             && Rebinned(s, t, v)
    ensures LastPassed(s, t, nb)
  {
    OnlyLast(s, v);
    forall c ensures Fits(t, c, nb) <==> Fits(s, c, nb) { }
  }

  lemma PassedEmpty(s: Shape, nb: int)
    requires Binned(s) && s.bins[1] == []
    ensures LastPassed(s, s, nb)
  {
    forall c | c in s.home ensures s.home[c] != 1 { assert c in s.bins[s.home[c]]; }
  }

  lemma PassedPromising(s: Shape, t: Shape, nb: int, idx: int)
    requires LastPassed(s, t, nb) && Promising(s, nb, idx)
    ensures Promising(t, nb, idx)
  {
    if idx == BinIndex(nb) {
      var c :| Fits(s, c, nb) && s.home[c] == idx;
      assert Fits(t, c, nb) && t.home[c] == idx;
    }
  }

  lemma PassedSmall(s: Shape, t: Shape, nb: int)
    requires LastPassed(s, t, nb)
    ensures LastTooSmall(s, nb)
  {
  }

  lemma PassedSmallest(s: Shape, t: Shape, v: int, nb: int)
    requires LastPassed(s, t, nb) && Smallest(t, v, nb)
    ensures Smallest(s, v, nb)
  {
  }

  /** Tries the last remainder: re-split, exhausted, or put in its bin. */
  method FromLast(h: Heap, nb: int) returns (p: int)
    requires h.Valid() && nb % 8 == 0 && nb >= MINSIZE
    modifies h`mem, h`s, h`binblocks
    ensures h.Valid() && h.s.top == old(h.s).top
    ensures p != 0 ==> Allocated(old(h.mem), old(h.s), h.mem, h.s, p, nb) && p in old(h.s).home && old(h.s).home[p] == 1
    ensures p != 0 ==> p in old(h.s).size && old(h.s).size[p] >= nb
    ensures p == 0 ==> LastPassed(old(h.s), h.s, nb) && Keeps(old(h.mem), old(h.s), h.mem, h.s, NOGAP)
    ensures p == 0 ==> h.s == Passed(old(h.s))
    ensures p != 0 ==> |old(h.s).bins| == NAV && h.s == FrontOf(Cleared(old(h.s)), p, nb)
  {
    hide Tags, Links, Indexed, Keeps, Allocated, Live, Rebinned;
    ghost var s0 := h.s;
    NoChunk(s0);
    EmptyRing(h.mem, h.s, 1);
    var victim := Fd(h.mem, BinAt(1));
    if victim == BinAt(1) {
      PassedEmpty(h.s, nb);
      KeepsAll(h.mem, h.s);
      return 0;
    }
    LastVictim(h.mem, h.s, victim);
    var vsize := ChunkSize(h.mem, victim);
    var rsize := vsize - nb;
    if rsize >= MINSIZE {
      SplitLast(h, victim, nb, rsize);
      p := victim;
    } else if rsize >= 0 {
      TakeLastWhole(h, victim, vsize, nb);
      p := victim;
    } else {
      Rebin(h, victim, vsize);
      PassedRebinned(s0, h.s, victim, nb);
      p := 0;
    }
  }

  lemma KeepsAll(mem: Memory, s: Shape)
    ensures Keeps(mem, s, mem, s, NOGAP)
  {
  }

  lemma LastVictim(mem: Memory, s: Shape, v: int)
    requires Tiled(s) && Binned(s) && Links(mem, s) && Tags(mem, s, NOGAP) && v == Fd(mem, BinAt(1)) && s.bins[1] != []
    ensures v in s.home && v in s.size && s.home[v] == 1 && ChunkSize(mem, v) == s.size[v] && v != 0
  {
    NoChunk(s);
    RingLink(mem, s, 1, 0);
    MemberHead(mem, s, NOGAP, 1, 0);
    assert ChunkOK(s, v);
  }

  // -------------------------------------------------------------------- top

  /** The bytes asked of the system: the fewest whole pages that are enough for the
      block and a minimal chunk after it */
  function SbrkSize(nb: int): (r: int)
    ensures r % PAGE == 0 && nb + MINSIZE <= r < nb + MINSIZE + PAGE
  {
    (nb + MINSIZE + (PAGE - 1)) / PAGE * PAGE
  }

  function Pages(n: nat): nat {
    n * PAGE
  }

  lemma SbrkFits(h: Heap, nb: int)
    requires h.Bounded() && 0 < h.s.base <= h.s.top && Next(h.s, h.s.top) >= h.s.base && MINSIZE <= nb <= 0x7FFF_FFF8
    ensures var end := (h.brk + SbrkSize(nb)) % WORD_LIMIT;
            (h.lo <= end <= h.hi <==> h.brk + SbrkSize(nb) <= h.hi)
            && (h.lo <= end <= h.hi ==> end == h.brk + SbrkSize(nb))
    ensures SbrkSize(nb) % PAGE == 0 && SbrkSize(nb) >= nb + MINSIZE
  {
    var x := h.brk + SbrkSize(nb);
    if x < WORD_LIMIT { NoWrap(x); } else { WrapOnce(x); }
  }

  lemma WrapOnce(x: int)
    requires WORD_LIMIT <= x < 2 * WORD_LIMIT
    ensures x % WORD_LIMIT == x - WORD_LIMIT
  {
  }

  /** malloc_extend_top: `top` grows by whole pages if the arena has them. */
  method ExtendTop(h: Heap, nb: int)
    requires h.Valid() && nb % 8 == 0 && MINSIZE <= nb <= 0x7FFF_FFF8
    modifies h`mem, h`s, h`brk
    ensures h.Valid() && Released(old(h.mem), old(h.s), h.mem, h.s, NOGAP)
    ensures var more := if old(h.brk) + SbrkSize(nb) <= h.hi then SbrkSize(nb) else 0;
            h.s == Resized(old(h.s), old(h.s).size[old(h.s).top] + more) && h.brk == old(h.brk) + more
  {
    hide Tags, Links, Binned, Indexed, Released, ChunkSize, SbrkSize;
    TopTells(h.mem, h.s);
    TopInside(h.s);
    SbrkFits(h, nb);
    hide Tiled;
    var old_top_size := ChunkSize(h.mem, h.top);
    var old_end := h.top + old_top_size;
    var sbrk_size := SbrkSize(nb);
    var br := Sbrk(h, sbrk_size);
    if br == WORD_LIMIT - 1 || br < old_end {
      return;
    }
    GrowTop(h, sbrk_size, old_top_size);
  }

  /** `top` takes in what lies between it and the new break. */
  method GrowTop(h: Heap, sbrk_size: int, old_top_size: int)
    requires Tiled(h.s) && Binned(h.s) && Links(h.mem, h.s) && Tags(h.mem, h.s, NOGAP) && Indexed(h.binblocks, h.s.bins)
    requires h.s.base == h.base >= h.lo && h.brk <= h.hi < WORD_LIMIT && h.hi - h.lo <= 0x7FFF_0000 && h.top == h.s.top
    requires sbrk_size % PAGE == 0 && (h.brk - sbrk_size) % PAGE == 0 && sbrk_size >= 0
    requires old_top_size == h.s.size[h.s.top] && Next(h.s, h.s.top) == h.brk - sbrk_size
    modifies h`mem, h`s
    ensures h.Valid() && Released(old(h.mem), old(h.s), h.mem, h.s, NOGAP)
    ensures h.s == Resized(old(h.s), old_top_size + sbrk_size)
  {
    hide Tags, Links, Binned, Indexed, Released, ChunkSize;
    TopTells(h.mem, h.s);
    hide Tiled;
    PagesAligned(h.brk - sbrk_size, sbrk_size);
    PageAligned(sbrk_size);
    SumAligned(old_top_size, sbrk_size);
    var top_size := sbrk_size + old_top_size;
    TrimTags(h.mem, h.s, top_size);
    h.mem := h.mem[h.top + 4 := top_size + 1];
    h.s := Resized(h.s, top_size);
  }

  /** The lower part of `top` comes into use. */
  lemma TopCut(mem: Memory, s: Shape, nb: int)
    requires Tiled(s) && Binned(s) && Links(mem, s) && Tags(mem, s, NOGAP)
    requires nb % 8 == 0 && MINSIZE <= nb <= s.size[s.top] - MINSIZE
    ensures var v, rs := s.top, s.size[s.top] - nb;
            var mem', t := mem[v + 4 := nb + 1][v + nb + 4 := rs + 1], Cut(s, v, nb);
            Tiled(t) && Binned(t) && Links(mem', t) && Tags(mem', t, NOGAP) && t.top == v + nb && t.size[t.top] == rs
            && t.bins == s.bins
            && Allocated(mem, s, mem', t, v, nb)
  {
    var v, rs := s.top, s.size[s.top] - nb;
    var mem1, mem', t := mem[v + 4 := nb + 1], mem[v + 4 := nb + 1][v + nb + 4 := rs + 1], Cut(s, v, nb);
    TopBit(mem, s);
    OpenGap(mem, s, v);
    CutOK(s, v, nb);
    CutGap(mem, s, v, nb);
    CloseLive(mem', t, v + nb);
    TagKeepsBase(mem, s, v, nb + 1);
    KeepsTag(mem, s, v, nb + 1, NOGAP);
    TopRest(mem1, s, t, v, nb, rs + 1);
    NoChunk(s);
    KeepsStep(mem, s, mem1, s, mem', t, NOGAP, v);
    forall x ensures Live(t, x) <==> Live(s, x) || x == v { assert Live(t, x) ==> x in s.size || x == v + nb; }
  }

  lemma TopRest(mem: Memory, s: Shape, t: Shape, v: int, nb: int, x: int)
    requires Tiled(s) && Tiled(t) && Binned(t) && Links(mem, s) && v == s.top && t == Cut(s, v, nb) && v + nb !in s.size
    ensures Links(mem[v + nb + 4 := x], t) && Keeps(mem, s, mem[v + nb + 4 := x], t, v)
  {
    assert Links(mem, t);
    TagKeepsBase(mem, t, v + nb, x);
    KeepsTag(mem, t, v + nb, x, NOGAP);
    NoChunk(t);
    KeepsShape(mem, s, t, v);
    KeepsStep(mem, s, mem, t, mem[v + nb + 4 := x], t, v, NOGAP);
  }

  /** Splits `top`; there is always a remainder. */
  method SplitTop(h: Heap, nb: int, rsize: int) returns (victim: int)
    requires h.Valid() && nb % 8 == 0 && nb >= MINSIZE && rsize == h.s.size[h.s.top] - nb >= MINSIZE
    modifies h`mem, h`s, h`top
    ensures h.Valid() && victim == old(h.s).top && Allocated(old(h.mem), old(h.s), h.mem, h.s, victim, nb)
    ensures victim in old(h.s).size && h.s == Cut(old(h.s), victim, nb)
  {
    hide Tags, Links, Binned, Tiled, Indexed, Allocated;
    TopCut(h.mem, h.s, nb);
    victim := h.top;
    h.mem := h.mem[victim + 4 := nb + 1];
    h.top := victim + nb;
    h.mem := h.mem[h.top + 4 := rsize + 1];
    h.s := Cut(h.s, victim, nb);
  }

  /** `top`, grown by `more` bytes, gives `nb` away. */
  ghost function TopCarved(s: Shape, nb: int, more: int): Shape
    requires s.top in s.size
  {
    Cut(Resized(s, s.size[s.top] + more), s.top, nb)
  }

  /** The end of mALLOc: from `top`, extended if need be. */
  method FromTop(h: Heap, nb: int) returns (victim: int)
    requires h.Valid() && nb % 8 == 0 && MINSIZE <= nb <= 0x7FFF_FFF8
    modifies h`mem, h`s, h`top, h`brk
    ensures h.Valid()
    ensures victim != 0 ==> victim == old(h.s).top && Allocated(old(h.mem), old(h.s), h.mem, h.s, victim, nb)
    ensures victim == 0 ==> Released(old(h.mem), old(h.s), h.mem, h.s, NOGAP) && h.brk == old(h.brk) && h.s == old(h.s)
    ensures victim == 0 <==> old(h.s).size[old(h.s).top] < nb + MINSIZE && old(h.brk) + SbrkSize(nb) > h.hi
    ensures victim != 0 ==> h.brk == old(h.brk) + if old(h.s).size[old(h.s).top] < nb + MINSIZE then SbrkSize(nb) else 0
    ensures victim != 0 ==> h.s == TopCarved(old(h.s), nb, h.brk - old(h.brk))
  {
    hide Tags, Links, Binned, Indexed, Allocated, Released, ChunkSize, SbrkSize;
    ghost var mem0, s0 := h.mem, h.s;
    TopTells(h.mem, h.s);
    TopInside(h.s);
    assert SbrkSize(nb) >= nb + MINSIZE by { SbrkFits(h, nb); }
    var rsize := ChunkSize(h.mem, h.top) - nb;
    if rsize < MINSIZE {
      ExtendTop(h, nb);
      ghost var mem1, s1 := h.mem, h.s;
      TopTells(h.mem, h.s);
      rsize := ChunkSize(h.mem, h.top) - nb;
      if rsize < MINSIZE { return 0; }
      victim := SplitTop(h, nb, rsize);
      ExtendedThen(mem0, s0, mem1, s1, h.mem, h.s, victim, nb);
    } else {
      victim := SplitTop(h, nb, rsize);
    }
  }

  lemma ExtendedThen(mem: Memory, s: Shape, mem1: Memory, s1: Shape, mem2: Memory, s2: Shape, c: int, nb: int)
    requires Tiled(s) && Tiled(s1) && Released(mem, s, mem1, s1, NOGAP) && Allocated(mem1, s1, mem2, s2, c, nb)
    ensures Allocated(mem, s, mem2, s2, c, nb)
  {
    NoChunk(s);
    NoChunk(s1);
    KeepsStep(mem, s, mem1, s1, mem2, s2, NOGAP, NOGAP);
    forall x ensures Live(s2, x) <==> Live(s, x) || x == c { assert Live(s1, x) <==> Live(s, x); }
  }

  // ----------------------------------------------------------------- mALLOc

  /** Where the block was cut from: an exact fit of the bins; else the last
      remainder, if it is large enough; else the best fit of the bins; or `top`
      when nothing free is large enough. */
  ghost predicate Chosen(s: Shape, c: int, nb: int) {
    (Smallest(s, c, nb) && (Exact(s, c, nb) || LastTooSmall(s, nb)))
    || (c in s.home && c in s.size && s.home[c] == 1 && s.size[c] >= nb && NoneExact(s, nb))
    || (c == s.top && NoneFree(s, nb))
  }

  ghost predicate LastTooSmall(s: Shape, nb: int) {
    forall c :: c in s.home && c in s.size && s.home[c] == 1 ==> s.size[c] < nb
  }

  ghost predicate NoneFree(s: Shape, nb: int) {
    forall c :: c in s.home && c in s.size ==> s.size[c] < nb
  }

  /** No free chunk is large enough, nor is `top`, and the arena cannot grow. */
  ghost predicate Refused(s: Shape, brk: int, hi: int, nb: int) {
    NoneFree(s, nb) && s.top in s.size && s.size[s.top] < nb + MINSIZE && brk + SbrkSize(nb) > hi
  }

  /** mALLOc answers 0 only when no number of whole pages that would be enough fits
      below the end of the arena. */
  lemma RefusedIff(s: Shape, brk: int, hi: int, nb: nat)
    requires s.top in s.size
    ensures Refused(s, brk, hi, nb) <==>
              NoneFree(s, nb) && s.size[s.top] < nb + MINSIZE
              && forall n: nat :: Pages(n) >= nb + MINSIZE ==> brk + Pages(n) > hi
  {
    hide NoneFree;
    var k: nat := SbrkSize(nb) / PAGE;
    assert Pages(k) == SbrkSize(nb);
    forall n: nat | Pages(n) >= nb + MINSIZE ensures Pages(n) >= SbrkSize(nb) {
      if n < k { MorePages(n, k); }
    }
  }

  lemma MorePages(n: nat, k: nat)
    requires n < k
    ensures Pages(n) + PAGE <= Pages(k)
  {
    assert Pages(k) - Pages(n) == (k - n) * PAGE;
  }

  /** The break once a block has been found: it moves only when nothing suffices. */
  ghost function Extended(s: Shape, brk: int, nb: int): int {
    brk + if NoneFree(s, nb) && s.top in s.size && s.size[s.top] < nb + MINSIZE then SbrkSize(nb) else 0
  }

  /** What mALLOc does to the chunks when it takes its block from chunk `c` and the
      arena grows by `more`: an exact fit leaves its bin; the last remainder is cut
      again; otherwise the last remainder goes to its bin, and the front of the
      best fit, or of `top`, is used.  Among chunks of the same size the one that
      has been in its bin longest is taken. */
  ghost predicate Carved(s: Shape, t: Shape, c: int, nb: int, more: int) {
    |s.bins| == NAV && c in s.size
    && if c !in s.home then c == s.top && Passed(s).top == c && c in Passed(s).size
    && t == TopCarved(Passed(s), nb, more)
       else if Exact(s, c, nb) then Binned(s) && Rearmost(s, c, nb) && t == Taken(s, c)
       else if s.home[c] == 1 then t == FrontOf(Cleared(s), c, nb)
       else Binned(Passed(s)) && Rearmost(Passed(s), c, nb) && c in Passed(s).size
            && t == FrontOf(Taken(Passed(s), c), c, nb)
  }

  lemma ExactCarved(s: Shape, v: int, nb: int)
    requires Binned(s) && Exact(s, v, nb) && Rearmost(s, v, nb)
    ensures Carved(s, Taken(s, v), v, nb, 0)
  {
  }

  lemma LastCarved(s: Shape, v: int, nb: int)
    requires Binned(s) && v in s.home && s.home[v] == 1 && v in s.size
    ensures Carved(s, FrontOf(Cleared(s), v, nb), v, nb, 0)
  {
  }

  lemma BestCarved(s: Shape, v: int, nb: int)
    requires Binned(s) && Binned(Passed(s)) && LastPassed(s, Passed(s), nb) && Smallest(Passed(s), v, nb)
             && Rearmost(Passed(s), v, nb) && NoneExact(s, nb)
    ensures v in Passed(s).home && v in Passed(s).size
    ensures Carved(s, FrontOf(Taken(Passed(s), v), v, nb), v, nb, 0)
  {
    hide Passed;
    assert Fits(Passed(s), v, nb) && Fits(s, v, nb);
  }

  lemma TopIsCarved(s: Shape, nb: int, more: int)
    requires Tiled(s) && Binned(s) && LastPassed(s, Passed(s), nb)
    ensures Passed(s).top in Passed(s).size && Carved(s, TopCarved(Passed(s), nb, more), s.top, nb, more)
  {
    hide Passed;
  }

  lemma NoneLeft(s: Shape, t: Shape, nb: int)
    requires Binned(s) && LastPassed(s, t, nb) && NoneFits(t, nb)
    ensures NoneFree(s, nb)
  {
    forall c | c in s.home && c in s.size ensures s.size[c] < nb { assert !Fits(t, c, nb) && !Fits(s, c, nb); }
  }

  lemma PassedThen(mem: Memory, s: Shape, mem1: Memory, s1: Shape, mem2: Memory, s2: Shape, c: int, nb: int)
    requires Tiled(s) && LastPassed(s, s1, nb) && Keeps(mem, s, mem1, s1, NOGAP) && Allocated(mem1, s1, mem2, s2, c, nb)
    ensures Allocated(mem, s, mem2, s2, c, nb)
  {
    NoChunk(s);
    KeepsStep(mem, s, mem1, s1, mem2, s2, NOGAP, NOGAP);
    forall x ensures Live(s2, x) <==> Live(s, x) || x == c { assert Live(s1, x) <==> Live(s, x); }
  }

  lemma PassedReleased(mem: Memory, s: Shape, mem1: Memory, s1: Shape, mem2: Memory, nb: int)
    requires Tiled(s) && LastPassed(s, s1, nb) && Keeps(mem, s, mem1, s1, NOGAP) && Released(mem1, s1, mem2, s1, NOGAP)
    ensures Released(mem, s, mem2, s1, NOGAP)
  {
    NoChunk(s);
    KeepsStep(mem, s, mem1, s1, mem2, s1, NOGAP, NOGAP);
  }

  /** The search for the best fit, and what is done with it. */
  method FromBins(h: Heap, nb: int, idx: int) returns (victim: int)
    requires h.Valid() && nb % 8 == 0 && nb >= MINSIZE && 4 <= idx < NAV && Promising(h.s, nb, idx)
    requires forall c :: c in h.s.home ==> h.s.home[c] != 1
    modifies h`mem, h`s, h`binblocks
    ensures h.Valid()
    ensures victim != 0 ==> Smallest(old(h.s), victim, nb) && Allocated(old(h.mem), old(h.s), h.mem, h.s, victim, nb)
    ensures victim == 0 ==> NoneFits(h.s, nb) && h.s == old(h.s) && h.mem == old(h.mem)
    ensures victim != 0 ==>
              Rearmost(old(h.s), victim, nb) && Binned(old(h.s)) && h.s == FrontOf(Taken(old(h.s), victim), victim, nb)
  {
    hide Tags, Links, Binned, Indexed, Allocated, ChunkSize, Tiled, Promising, NoneFits, Rearmost;
    victim := SearchBins(h, nb, idx);
    if victim != 0 {
      var vsize := ChunkSize(h.mem, victim);
      var rsize := vsize - nb;
      if rsize >= MINSIZE {
        SplitBest(h, victim, nb, rsize);
      } else {
        TakeBest(h, victim, vsize, nb);
      }
    }
  }

  lemma LastChosen(s: Shape, v: int, nb: int)
    requires Tiled(s) && v in s.home && s.home[v] == 1 && v in s.size && s.size[v] >= nb && NoneExact(s, nb)
    ensures Chosen(s, v, nb) && !NoneFree(s, nb) && v >= AV_END
  {
    assert ChunkOK(s, v);
  }

  lemma TopChosen(s: Shape, nb: int)
    requires Tiled(s) && NoneFree(s, nb)
    ensures Chosen(s, s.top, nb) && s.top >= AV_END
  {
    assert ChunkOK(s, s.top);
  }

  /** mALLOc when the bins of the request hold no exact fit. */
  method NoExactFit(h: Heap, nb: int, idx: int) returns (r: int)
    requires h.Valid() && nb % 8 == 0 && MINSIZE <= nb <= 0x7FFF_FFF8 && ExactResult(h.s, nb, 0, idx)
    modifies h`mem, h`s, h`top, h`brk, h`binblocks
    ensures h.Valid()
    ensures r != 0 ==> Allocated(old(h.mem), old(h.s), h.mem, h.s, r - 8, nb) && Chosen(old(h.s), r - 8, nb)
    ensures r == 0 ==>
              Released(old(h.mem), old(h.s), h.mem, h.s, NOGAP) && h.brk == old(h.brk) && h.s.size == old(h.s).size
    ensures r == 0 <==> Refused(old(h.s), old(h.brk), h.hi, nb)
    ensures r != 0 ==> h.brk == Extended(old(h.s), old(h.brk), nb)
    ensures if r == 0 then h.s == Passed(old(h.s)) else Carved(old(h.s), h.s, r - 8, nb, h.brk - old(h.brk))
  {
    hide Tags, Links, Binned, Indexed, Allocated, Released, ChunkSize, SbrkSize, Chosen, Keeps, NoneFree, Smallest,
         LastTooSmall, NoneExact, Exact, Promising, Carved, Passed, FrontOf, Taken, TopCarved, Rearmost;
    ghost var mem0, s0 := h.mem, h.s;
    var victim := FromLast(h, nb);
    if victim != 0 {
      LastChosen(s0, victim, nb);
      LastCarved(s0, victim, nb);
      return victim + 8;
    }
    ghost var mem1, s1 := h.mem, h.s;
    PassedPromising(s0, s1, nb, idx);
    victim := FromBins(h, nb, idx);
    if victim != 0 {
      PassedThen(mem0, s0, mem1, s1, h.mem, h.s, victim, nb);
      PassedSmallest(s0, s1, victim, nb);
      PassedSmall(s0, s1, nb);
      ExactChosen(s0, victim, nb);
      BestCarved(s0, victim, nb);
      return victim + 8;
    }
    NoneLeft(s0, s1, nb);
    ghost var brk0 := h.brk;
    TopChosen(s0, nb);
    victim := FromTop(h, nb);
    if victim != 0 {
      PassedThen(mem0, s0, mem1, s1, h.mem, h.s, victim, nb);
      TopIsCarved(s0, nb, h.brk - brk0);
      return victim + 8;
    }
    PassedReleased(mem0, s0, mem1, s1, h.mem, nb);
    r := 0;
  }

  /** mALLOc */
  method Malloc(h: Heap, bytes: nat) returns (r: int)
    requires h.Valid() && bytes < WORD_LIMIT
    modifies h`mem, h`s, h`top, h`brk, h`binblocks
    ensures h.Valid()
    ensures r != 0 ==>
              bytes < LONG_LIMIT && Allocated(old(h.mem), old(h.s), h.mem, h.s, r - 8, PadRequest(bytes))
              && Chosen(old(h.s), r - 8, PadRequest(bytes))
    ensures r == 0 ==>
              Released(old(h.mem), old(h.s), h.mem, h.s, NOGAP) && h.brk == old(h.brk) && h.s.size == old(h.s).size
    ensures r == 0 <==> bytes >= LONG_LIMIT || Refused(old(h.s), old(h.brk), h.hi, PadRequest(bytes))
    ensures r != 0 ==> h.brk == Extended(old(h.s), old(h.brk), PadRequest(bytes))
    ensures if r == 0 then h.s == if bytes < LONG_LIMIT then Passed(old(h.s)) else old(h.s)
            else Carved(old(h.s), h.s, r - 8, PadRequest(bytes), h.brk - old(h.brk))
  {
    hide Tags, Links, Binned, Indexed, Allocated, Released, ChunkSize, SbrkSize, Chosen, Keeps, PadRequest, Carved,
         Passed, Taken,
         Rearmost;
    ghost var mem0, s0 := h.mem, h.s;
    if Signed(bytes) < 0 {
      TopTells(h.mem, h.s);
      return 0;
    }
    PadRange(bytes);
    var nb := PadRequest(bytes);
    var victim, idx := ExactFit(h, nb);
    if victim != 0 {
      ExactChosen(s0, victim, nb);
      ExactCarved(s0, victim, nb);
      FreeHead(h.mem, s0, victim);
      TakeExact(h, victim, ChunkSize(h.mem, victim), nb);
      return victim + 8;
    }
    r := NoExactFit(h, nb, idx);
  }

  lemma PadRange(bytes: nat)
    requires bytes < LONG_LIMIT
    ensures MINSIZE <= PadRequest(bytes) <= 0x7FFF_FFF8 && PadRequest(bytes) % 8 == 0
  {
    PadSuits(bytes);
  }

  lemma ExactChosen(s: Shape, v: int, nb: int)
    requires Tiled(s) && Smallest(s, v, nb) && (Exact(s, v, nb) || LastTooSmall(s, nb))
    ensures Chosen(s, v, nb) && !NoneFree(s, nb) && v in s.home && v in s.size && v >= AV_END
  {
    assert ChunkOK(s, v);
  }
}
