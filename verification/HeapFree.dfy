// Freeing: tags of the chunk in between, coalescing, trimming, and fREe.
module HeapFree {
  import opened HeapWords
  import opened HeapShape
  import opened HeapTags
  import opened HeapLinks
  import opened HeapState
  import opened HeapSteps

  /** Which blocks are in use changes by at most one either way. */
  ghost predicate LiveChange(s: Shape, s': Shape, minus: int, plus: int) {
    forall x {:trigger Live(s', x)} {:trigger Live(s, x)} :: Live(s', x) <==>
        (Live(s, x) && x != minus) || (x == plus && plus != NOGAP)
  }

  // ------------------------------------------------------------- tag writes

  /** Writing a tag keeps everything but the tags. */
  lemma TagKeepsBase(mem: Memory, s: Shape, c: int, v: int)
    requires Tiled(s) && Binned(s) && Links(mem, s) && c in s.size
    ensures Links(mem[c + 4 := v], s) && Links(mem[c := v], s)
  {
    TagWrite(mem, s, c, v);
    LinksSame(mem, mem[c + 4 := v], s);
    LinksSame(mem, mem[c := v], s);
  }

  /** set_head on the chunk in between */
  method SetHead(h: Heap, g: int, v: int)
    requires h.Ready(g) && g in h.s.size && v % 2 == Bit(h.mem, g)
    modifies h`mem
    ensures h.Ready(g) && Head(h.mem, g) == v && Bit(h.mem, g) == old(Bit(h.mem, g))
            && Keeps(old(h.mem), h.s, h.mem, h.s, NOGAP)
    ensures h.mem == old(h.mem)[g + 4 := v]
  {
    WriteGap(h.mem, h.s, g, v, 0);
    TagKeepsBase(h.mem, h.s, g, v);
    KeepsTag(h.mem, h.s, g, v, NOGAP);
    h.mem := h.mem[g + 4 := v];
  }

  /** set_foot on the chunk in between, which is not in use */
  method SetFoot(h: Heap, g: int, v: int)
    requires h.Ready(g) && g in h.s.size && g != h.s.top && v == h.s.size[g]
    modifies h`mem
    ensures h.Ready(g) && Head(h.mem, g) == old(Head(h.mem, g)) && PrevSize(h.mem, Next(h.s, g)) == v
    ensures Bit(h.mem, Next(h.s, g)) == old(Bit(h.mem, Next(h.s, g)))
    ensures Keeps(old(h.mem), h.s, h.mem, h.s, g)
  {
    assert ChunkOK(h.s, g);
    FootGap(h.mem, h.s, g, v);
    TagKeepsBase(h.mem, h.s, Next(h.s, g), v);
    KeepsTag(h.mem, h.s, g, v, g);
    h.mem := h.mem[g + v := v];
  }

  lemma FootGap(mem: Memory, s: Shape, g: int, v: int)
    requires Tiled(s) && Tags(mem, s, g) && g in s.size
    ensures Tags(mem[Next(s, g) := v], s, g)
  {
    WriteGap(mem, s, g, Head(mem, g), v);
    var mem' := mem[g + 4 := Head(mem, g)][Next(s, g) := v];
    assert SameTags(mem', mem[Next(s, g) := v], s);
    TagsSame(mem', mem[Next(s, g) := v], s, g);
  }

  /** set_inuse_bit_at_offset, or its opposite, for the chunk in between */
  method SetBitAfter(h: Heap, g: int, gsize: int, bit: int)
    requires h.Ready(g) && g in h.s.size && g != h.s.top && gsize == h.s.size[g] && bit in {0, 1}
             && (bit == 0 ==> Next(h.s, g) != h.s.top)
    modifies h`mem
    ensures h.Ready(g) && Bit(h.mem, Next(h.s, g)) == bit && Head(h.mem, g) == old(Head(h.mem, g))
    ensures Keeps(old(h.mem), h.s, h.mem, h.s, NOGAP)
  {
    assert ChunkOK(h.s, g);
    var n := g + gsize;
    var size := Head(h.mem, n) / 2 * 2;
    HeadTells(h.mem, h.s, g, n);
    MarkGap(h.mem, h.s, g, bit);
    TagKeepsBase(h.mem, h.s, n, size + bit);
    KeepsTag(h.mem, h.s, n, size + bit, NOGAP);
    h.mem := h.mem[n + 4 := size + bit];
  }

  // ------------------------------------------------------------- coalescing

  lemma KeepsMore(mem: Memory, s: Shape, mem': Memory, s': Shape, g: int)
    requires Tiled(s) && Keeps(mem, s, mem', s', NOGAP)
    ensures Keeps(mem, s, mem', s', g)
  {
    NoChunk(s);
  }

  /** Consolidate backward: the free chunk before the one in between. */
  method TakeBack(h: Heap, g: int) returns (q: int, prevsz: int)
    requires h.Ready(g) && Live(h.s, g) && Bit(h.mem, g) == 0
    modifies h`mem, h`s
    ensures h.Ready(q) && Live(h.s, q) && prevsz == old(PrevSize(h.mem, g)) && q == g - prevsz
    ensures h.s.size[q] == prevsz + old(h.s).size[g] && Bit(h.mem, q) == 1 && h.s.top == old(h.s).top
    ensures Bit(h.mem, Next(h.s, q)) == old(Bit(h.mem, Next(h.s, g))) && Next(h.s, q) == Next(old(h.s), g)
    ensures forall c :: c in h.s.home <==> c in old(h.s).home && c != q
    ensures LiveChange(old(h.s), h.s, g, q) && Keeps(old(h.mem), old(h.s), h.mem, h.s, g)
            && SameRoom(old(h.mem), h.mem, old(h.s), g)
    ensures forall c :: c in old(h.s).size && c != g && c != q ==> c in h.s.size && h.s.size[c] == old(h.s).size[c]
    ensures !Live(old(h.s), q) && q < g
    ensures Before(old(h.s), q, g) && Binned(old(h.s)) && h.s == Joined(Taken(old(h.s), q), q)
  {
    ghost var mem0, s0 := h.mem, h.s;
    BackTells(h.mem, h.s, g);
    assert ChunkOK(s0, g - PrevSize(h.mem, g));
    prevsz := PrevSize(h.mem, g);
    q := g - prevsz;
    Unlink(h, q);
    ghost var s1 := h.s;
    KeptRoom(mem0, s0, h.mem, s1, g);
    BackJoined(mem0, s0, h.mem, s1, g, q);
    h.s := Joined(s1, q);
  }

  lemma KeptRoom(mem: Memory, s: Shape, mem': Memory, s': Shape, p: int)
    requires Tiled(s) && Keeps(mem, s, mem', s', NOGAP)
    ensures Live(s, p) ==> SameRoom(mem, mem', s, p)
  {
    NoChunk(s);
  }

  lemma BackJoined(mem0: Memory, s0: Shape, mem: Memory, s1: Shape, g: int, q: int)
    requires Tiled(s0) && Binned(s0) && Tags(mem0, s0, g) && Live(s0, g) && q in s0.home && q in s0.size
             && Next(s0, q) == g
    requires Bit(mem0, q) == 1 && s1 == Taken(s0, q) && Tiled(s1) && Binned(s1)
    requires SameTags(mem0, mem, s1) && Keeps(mem0, s0, mem, s1, NOGAP)
    ensures var t := Joined(s1, q);
            Tiled(t) && Binned(t) && Tags(mem, t, q) && Bit(mem, q) == 1 && Live(t, q)
            && t.size[q] == s0.size[q] + s0.size[g] && t.top == s0.top && t.bins == s1.bins && Next(t, q) == Next(s0, g)
            && Next(s0, g) in s0.size && Bit(mem, Next(s0, g)) == Bit(mem0, Next(s0, g))
            && LiveChange(s0, t, g, q) && Keeps(mem0, s0, mem, t, g) && t.base == s0.base
  {
    NoChunk(s0);
    assert ChunkOK(s0, q) && ChunkOK(s0, g);
    TagsSame(mem0, mem, s0, g);
    JoinBack(mem, s0, s1, g, q);
    JoinedOK(s1, q);
    var t := Joined(s1, q);
    assert Live(s1, q) && Live(s1, g);
    forall x | Live(s0, x) && x != g
      ensures Live(t, x) && t.size[x] == s0.size[x] && SameRoom(mem0, mem, s0, x)
    {
      assert Live(s1, x);
    }
  }

  /** Consolidate forward: the free chunk after the one in between. */
  method TakeNext(h: Heap, g: int, n: int)
    requires h.Ready(g) && g in h.s.size && g != h.s.top && n == Next(h.s, g) && n in h.s.home && n in h.s.size
    requires g in h.s.home ==> h.s.home[g] == 1
    modifies h`mem, h`s
    ensures h.Ready(g) && NextTaken(old(h.mem), old(h.s), h.mem, h.s, g)
            && (Live(old(h.s), g) ==> SameRoom(old(h.mem), h.mem, old(h.s), g))
    ensures g in h.s.home <==> g in old(h.s).home
    ensures g in h.s.home ==> h.s.home[g] == 1
    ensures Binned(old(h.s)) && h.s == Joined(Taken(old(h.s), n), g)
  {
    ghost var mem0, s0 := h.mem, h.s;
    Unlink(h, n);
    ghost var s1 := h.s;
    KeptRoom(mem0, s0, h.mem, s1, g);
    KeepsMore(mem0, s0, h.mem, s1, g);
    assert ChunkOK(s0, g);
    assert s1.home == s0.home - {n} && n != g;
    NextJoined(mem0, s0, h.mem, s1, g);
    h.s := Joined(s1, g);
  }

  /** The chunk after `g` is part of it. */
  ghost predicate NextTaken(mem0: Memory, s0: Shape, mem: Memory, t: Shape, g: int) {
    g in s0.size && Next(s0, g) in s0.size && g in t.size && t.size[g] == s0.size[g] + s0.size[Next(s0, g)]
    && t.top == s0.top
    && Next(t, g) in t.size && Next(t, g) !in t.home && Next(t, g) != t.top && Bit(mem, Next(t, g)) == 0
    && Bit(mem, g) == Bit(mem0, g)
    && PrevSize(mem, g) == PrevSize(mem0, g)
    && (forall c :: Live(s0, c) && c != g ==> Live(t, c)) && (forall c :: Live(t, c) && c != g ==> Live(s0, c))
    && Keeps(mem0, s0, mem, t, g)
    && t.top in t.size && t.top in s0.size && t.size[t.top] == s0.size[t.top]
  }

  lemma NextJoined(mem0: Memory, s0: Shape, mem: Memory, s1: Shape, g: int)
    requires Tiled(s0) && Binned(s0) && Tags(mem0, s0, g) && g in s0.size && g != s0.top && Next(s0, g) in s0.home
             && Next(s0, g) in s0.size
    requires s1.size == s0.size && s1.top == s0.top && s1.base == s0.base && Next(s0, g) !in s1.home && Tiled(s1)
             && Binned(s1)
    requires forall c :: c != g && c != Next(s0, g) ==> (c in s0.home <==> c in s1.home)
    requires g in s1.home ==> s1.home[g] == 1
    requires SameTags(mem0, mem, s1) && Keeps(mem0, s0, mem, s1, g)
    ensures var t := Joined(s1, g);
            Tiled(t) && Binned(t) && Tags(mem, t, g) && NextTaken(mem0, s0, mem, t, g) && t.bins == s1.bins
            && t.base == s0.base
  {
    assert ChunkOK(s0, g);
    assert ChunkOK(s0, Next(s0, g));
    TagsSame(mem0, mem, s0, g);
    JoinNext(mem, s0, s1, g);
    JoinedOK(s1, g);
    var t := Joined(s1, g);
    forall x | Live(s0, x) && x != g
      ensures Live(t, x) && t.size[x] == s0.size[x] && SameRoom(mem0, mem, s0, x)
    {
      assert Live(s1, x);
    }
  }

  /** Free the last remainder forward: `g` takes its place in its bin. */
  method TakeLast(h: Heap, g: int, n: int)
    requires h.Ready(g) && Live(h.s, g) && n == Next(h.s, g) && n in h.s.home && n in h.s.size && h.s.home[n] == 1
    modifies h`mem, h`s
    ensures h.Ready(g) && NextTaken(old(h.mem), old(h.s), h.mem, h.s, g)
    ensures g in h.s.home && h.s.home[g] == 1
    ensures Binned(old(h.s)) && h.s == Joined(Remaindered(old(h.s), g), g)
  {
    ghost var mem0, s0 := h.mem, h.s;
    assert ChunkOK(s0, g);
    LinkLast(h, g);
    ghost var s1 := h.s;
    LastReplaced(s0, g, n);
    NextJoined(mem0, s0, h.mem, s1, g);
    h.s := Joined(s1, g);
  }

  /** There is only one last remainder. */
  lemma LastReplaced(s: Shape, g: int, n: int)
    requires Binned(s) && n in s.home && s.home[n] == 1 && g != n
    ensures n !in Remaindered(s, g).home && Remaindered(s, g).home.Keys == s.home.Keys - {n} + {g}
  {
    assert BinOK(s, 1);
    forall c | c in s.home && s.home[c] == 1 ensures c == n {
      assert c in s.bins[1] && n in s.bins[1];
    }
  }

  /** A chunk's forward link tells the last remainder. */
  lemma LastTells(mem: Memory, s: Shape, p: int)
    requires Tiled(s) && Binned(s) && Links(mem, s) && p in s.home
    ensures Fd(mem, p) == BinAt(1) <==> s.home[p] == 1
  {
    Neighbours(mem, s, p);
    var i, k := s.home[p], Place(s, p);
    if i != 1 { RingsDisjoint(s, 1, 0, i, k + 2); }
  }

  /** Whether the chunk after the one in between's neighbour is free. */
  lemma AfterNextTells(mem: Memory, s: Shape, g: int, n: int)
    requires Tiled(s) && Tags(mem, s, g) && g in s.size && n == Next(s, g) && n in s.size && n != s.top
    ensures Next(s, n) in s.size && (Bit(mem, Next(s, n)) == 0 <==> n in s.home)
  {
    assert ChunkOK(s, n) && ChunkOK(s, g) && TagOK(mem, s, g, n) && TagOK(mem, s, g, Next(s, n));
    var m := Next(s, n);
    if Bit(mem, m) == 0 { NextUnique(s, n, m - PrevSize(mem, m)); }
  }

  // ------------------------------------------------------------------ fREe

  /** The free chunk `q` lies right before `p`. */
  ghost predicate Before(s: Shape, q: int, p: int) {
    q in s.home && q in s.size && Next(s, q) == p
  }

  /** The chunk before the block is the only one. */
  lemma OneBefore(mem: Memory, s: Shape, p: int, g: int)
    requires Tiled(s) && Tags(mem, s, g) && Live(s, p) && (g == NOGAP || g == p)
    ensures Bit(mem, p) == 1 ==> !exists q :: Before(s, q, p)
    ensures forall q, q' :: Before(s, q, p) && Before(s, q', p) ==> q == q'
  {
    forall q | Before(s, q, p) ensures Bit(mem, p) == 0 { assert TagOK(mem, s, g, q) && ChunkOK(s, q); }
    forall q, q' | Before(s, q, p) && Before(s, q', p) ensures q == q' {
      assert Separate(s, q, q') && Separate(s, q', q) && ChunkOK(s, q) && ChunkOK(s, q');
    }
  }

  /** Block `p` has become part of chunk `g`: of the free chunk before it, which is
      taken out of its bin unless it is the last remainder. */
  ghost predicate BackMerged(s: Shape, s1: Shape, p: int, g: int) {
    if Before(s, g, p) then
      Binned(s) && p in s.size && s1 == if s.home[g] == 1 then Joined(s, g) else Joined(Taken(s, g), g)
    else g == p && s1 == s && forall q :: !Before(s, q, p)
  }

  /** Chunk `g` takes in the free chunk after it, and its place if that is the last
      remainder. */
  ghost predicate FrontMerged(s: Shape, t: Shape, g: int) {
    g in s.size
    && if Next(s, g) in s.home && Next(s, g) in s.size then
         Binned(s)
         && t == if g !in s.home && s.home[Next(s, g)] == 1 then Joined(Remaindered(s, g), g)
                 else Joined(Taken(s, Next(s, g)), g)
       else t == s
  }

  /** Block `p` away from `top` has been freed: it is one free chunk with those
      around it, the last remainder if one of them was that, else in the bin of
      its size. */
  ghost predicate Freed(s: Shape, t: Shape, p: int) {
    exists s1, g, s2 :: BackMerged(s, s1, p, g) && FrontMerged(s1, s2, g) && Settles(s2, t, g)
  }

  /** Block `p` next to `top` has been freed: with the free chunk before it, if
      there is one, it is part of `top`, which ends at the break `brk`. */
  ghost predicate FreedTop(s: Shape, t: Shape, p: int, brk: int) {
    exists s1, g :: BackTaken(s, s1, p, g) && TopTaken(s1, t, g, brk)
  }

  ghost predicate BackTaken(s: Shape, s1: Shape, p: int, g: int) {
    if Before(s, g, p) then Binned(s) && p in s.size && s1 == Joined(Taken(s, g), g)
    else g == p && s1 == s && forall q :: !Before(s, q, p)
  }

  ghost predicate TopTaken(s: Shape, t: Shape, g: int, brk: int) {
    g in s.size && Next(s, g) in s.size && Next(s, g) == s.top && t == Resized(Joined(s, g), brk - g)
  }

  /** What freeing block `p` does to the chunks. */
  ghost predicate FreedAny(s: Shape, t: Shape, p: int, brk: int) {
    p in s.size && if Next(s, p) == s.top then FreedTop(s, t, p, brk) else Freed(s, t, p)
  }

  ghost predicate Settles(s: Shape, t: Shape, g: int) {
    g in s.size && s.size[g] >= MINSIZE && |s.bins| == NAV && t == if g in s.home then s else Entered(s, g)
  }

  /** The block is in use no longer and everything else is as it was. */
  ghost predicate Released(mem: Memory, s: Shape, mem': Memory, s': Shape, p: int) {
    LiveChange(s, s', p, NOGAP) && Keeps(mem, s, mem', s', p)
  }

  /** The chunk in between becomes a free chunk of the bins. */
  method Finish(h: Heap, p: int, sz: int, islr: bool)
    requires h.Ready(p) && p in h.s.size && p != h.s.top && sz == h.s.size[p] && Bit(h.mem, p) == 1
    requires Bit(h.mem, Next(h.s, p)) == 0 && Next(h.s, p) !in h.s.home
    requires islr <==> p in h.s.home
    modifies h`mem, h`s, h`binblocks
    ensures h.Valid() && LiveChange(old(h.s), h.s, p, NOGAP) && Keeps(old(h.mem), old(h.s), h.mem, h.s, p)
    ensures h.s.size == old(h.s).size && h.s.top == old(h.s).top && Settles(old(h.s), h.s, p)
  {
    ghost var mem0, s0 := h.mem, h.s;
    NoChunk(s0);
    assert ChunkOK(s0, p);
    TagBit(sz, 1);
    SetHead(h, p, sz + 1);
    ghost var mem1 := h.mem;
    SetFoot(h, p, sz);
    KeepsMore(mem0, s0, mem1, s0, p);
    KeepsStep(mem0, s0, mem1, s0, h.mem, s0, p, p);
    ghost var mem2 := h.mem;
    if !islr {
      FrontLink(h, p, sz);
      KeepsStep(mem0, s0, mem2, s0, h.mem, h.s, p, p);
      Linked1(mem2, h.mem, s0, h.s, p);
    } else {
      CloseFree(h.mem, s0, s0, p);
    }
  }

  lemma Linked1(mem: Memory, mem': Memory, s: Shape, t: Shape, p: int)
    requires Tiled(s) && Tags(mem, s, p) && p in s.size && p != s.top && SameTags(mem, mem', t)
    requires t.size == s.size && t.top == s.top && t.home.Keys == s.home.Keys + {p}
    requires Head(mem, p) == s.size[p] + 1 && PrevSize(mem, Next(s, p)) == s.size[p]
    requires Bit(mem, Next(s, p)) == 0 && Next(s, p) !in s.home
    ensures Tags(mem', t, NOGAP)
  {
    assert ChunkOK(s, p);
    TagsSame(mem, mem', s, p);
    CloseFree(mem', s, t, p);
  }

  /** Between the steps of fREe: block `p` of the original state has become
      part of chunk `g`, whose tags are not written yet. */
  ghost predicate Freeing(mem0: Memory, s0: Shape, p: int, mem: Memory, s: Shape, g: int) {
    g in s.size && g != s.top && Bit(mem, g) == 1 && (g in s.home ==> s.home[g] == 1)
    && (forall x {:trigger Live(s, x)} :: x != g ==> (Live(s, x) <==> Live(s0, x) && x != p))
    && (g == p || !Live(s0, g))
    && Keeps(mem0, s0, mem, s, p)
    && s.top == s0.top && s.top in s.size && s.top in s0.size && s.size[s.top] == s0.size[s.top]
    && Next(s, g) in s.size && Bit(mem, Next(s, g)) == 0
  }

  lemma FreeingStarts(mem: Memory, s: Shape, mem': Memory, p: int)
    requires Tiled(s) && Live(s, p) && Keeps(mem, s, mem', s, NOGAP) && Bit(mem', p) == 1 && Bit(mem', Next(s, p)) == 0
    ensures Freeing(mem, s, p, mem', s, p)
  {
    KeepsMore(mem, s, mem', s, p);
    assert ChunkOK(s, p);
  }

  /** One more chunk has been taken in. */
  lemma FreeingGrows(mem0: Memory, s0: Shape, p: int, mem: Memory, s: Shape, g: int, mem': Memory, s': Shape)
    requires Freeing(mem0, s0, p, mem, s, g) && NextTaken(mem, s, mem', s', g) && g != s.top && Tiled(s) && Tiled(s')
    requires s'.size[s'.top] == s.size[s.top] && (g in s'.home ==> s'.home[g] == 1)
    ensures Freeing(mem0, s0, p, mem', s', g)
  {
    KeepsStep(mem0, s0, mem, s, mem', s', p, g);
    forall x | x != g ensures Live(s', x) <==> Live(s0, x) && x != p { assert Live(s', x) <==> Live(s, x); }
  }

  lemma FreeingEnds(mem0: Memory, s0: Shape, p: int, mem: Memory, s: Shape, g: int, mem': Memory, s': Shape)
    requires Tiled(s0) && Live(s0, p) && Freeing(mem0, s0, p, mem, s, g) && LiveChange(s, s', g, NOGAP)
             && Keeps(mem, s, mem', s', g)
    ensures Released(mem0, s0, mem', s', p)
  {
    KeepsStep(mem0, s0, mem, s, mem', s', p, g);
    NoChunk(s0);
    forall x ensures Live(s', x) <==> Live(s0, x) && x != p { assert Live(s', x) <==> Live(s, x) && x != g; }
  }

  /** Consolidate backward, keeping the last remainder in its place. */
  method FreeBack(h: Heap, p: int, hd: int, sz: int, ghost mem0: Memory, ghost s0: Shape)
      returns (g: int, gsz: int, islr: bool)
    requires h.Ready(p) && Live(h.s, p) && hd == Head(h.mem, p) && sz == h.s.size[p]
    requires Tiled(s0) && h.s == s0 && Keeps(mem0, s0, h.mem, h.s, NOGAP) && Next(s0, p) in s0.size
             && Bit(h.mem, Next(s0, p)) == 0
    modifies h`mem, h`s
    ensures h.Ready(g) && Freeing(mem0, s0, p, h.mem, h.s, g) && gsz == h.s.size[g] && Next(h.s, g) == Next(s0, p)
    ensures islr <==> g in h.s.home
    ensures h.s.size[Next(h.s, g)] == s0.size[Next(s0, p)]
    ensures BackMerged(s0, h.s, p, g)
  {
    KeepsMore(mem0, s0, h.mem, s0, p);
    OneBefore(h.mem, s0, p, p);
    if hd % 2 == 0 {
      BackTells(h.mem, h.s, p);
      var q := p - PrevSize(h.mem, p);
      LastTells(h.mem, h.s, q);
      if Fd(h.mem, q) == BinAt(1) {
        g, gsz, islr := q, sz + PrevSize(h.mem, p), true;
        h.s := Joined(h.s, q);
        LastJoined(mem0, s0, p, h.mem, q);
      } else {
        ghost var mem1 := h.mem;
        g, gsz := TakeBack(h, p);
        gsz, islr := sz + gsz, false;
        KeepsStep(mem0, s0, mem1, s0, h.mem, h.s, p, p);
        BackFreeing(mem0, s0, p, h.mem, h.s, g);
      }
    } else {
      g, gsz, islr := p, sz, false;
      FreeingStarts(mem0, s0, h.mem, p);
    }
  }

  lemma BackFreeing(mem0: Memory, s0: Shape, p: int, mem: Memory, s: Shape, g: int)
    requires Live(s0, p) && Live(s, g) && Bit(mem, g) == 1 && LiveChange(s0, s, p, g) && !Live(s0, g)
             && Keeps(mem0, s0, mem, s, p)
    requires Tiled(s0) && Tiled(s) && s.top == s0.top && Next(s, g) == Next(s0, p) && Bit(mem, Next(s, g)) == 0
    requires s.top in s.size && s.top in s0.size && s.size[s.top] == s0.size[s.top]
    ensures Freeing(mem0, s0, p, mem, s, g)
  {
    assert ChunkOK(s, g);
    forall x | x != g ensures Live(s, x) <==> Live(s0, x) && x != p { assert Live(s, x) <==> Live(s0, x) && x != p; }
  }

  /** The last remainder takes in the block after it. */
  lemma LastJoined(mem0: Memory, s0: Shape, p: int, mem: Memory, q: int)
    requires Tiled(s0) && Binned(s0) && Links(mem, s0) && Tags(mem, s0, p) && Live(s0, p) && q in s0.home
             && q in s0.size && q != p
    requires Next(s0, q) == p && s0.home[q] == 1 && Bit(mem, q) == 1 && Bit(mem, p) == 0 && Keeps(mem0, s0, mem, s0, p)
    requires Bit(mem, Next(s0, p)) == 0
    ensures p in s0.size && Next(s0, p) in s0.size
    ensures var s := Joined(s0, q);
            Tiled(s) && Binned(s) && Links(mem, s) && Tags(mem, s, q) && Freeing(mem0, s0, p, mem, s, q)
            && Next(s, q) == Next(s0, p)
            && s.size[q] == s0.size[q] + s0.size[p] && s.size[Next(s, q)] == s0.size[Next(s0, p)]
  {
    assert ChunkOK(s0, p) && ChunkOK(s0, q);
    JoinBack(mem, s0, s0, p, q);
    JoinedOK(s0, q);
    var s := Joined(s0, q);
    assert ChunkOK(s0, Next(s0, p));
    forall x | Live(s0, x) && x != p
      ensures Live(s, x) && s.size[x] == s0.size[x] && SameRoom(mem0, mem, s0, x)
    {
      assert Live(s0, x);
    }
  }

  /** Consolidate forward, then write the tags and link the chunk. */
  method FreeForward(h: Heap, g: int, sz0: int, next: int, nextsz: int, islr0: bool, ghost mem0: Memory,
                     ghost s0: Shape, ghost p: int)
    requires h.Ready(g) && Tiled(s0) && Live(s0, p) && Freeing(mem0, s0, p, h.mem, h.s, g) && sz0 == h.s.size[g]
             && (islr0 <==> g in h.s.home)
    requires next == Next(h.s, g) && next in h.s.size && nextsz == h.s.size[next] && next != h.s.top
    modifies h`mem, h`s, h`binblocks
    ensures h.Valid() && Released(mem0, s0, h.mem, h.s, p)
    ensures h.s.top == s0.top && h.s.size[h.s.top] == s0.size[s0.top]
    ensures exists s2 :: FrontMerged(old(h.s), s2, g) && Settles(s2, h.s, g)
  {
    var sz, islr := sz0, islr0;
    ghost var mem1, s1 := h.mem, h.s;
    AfterNextTells(h.mem, h.s, g, next);
    if Bit(h.mem, next + nextsz) == 0 {
      sz := sz + nextsz;
      LastTells(h.mem, h.s, next);
      if !islr && Fd(h.mem, next) == BinAt(1) {
        islr := true;
        TakeLast(h, g, next);
      } else {
        TakeNext(h, g, next);
      }
      FreeingGrows(mem0, s0, p, mem1, s1, g, h.mem, h.s);
    }
    ghost var mem2, s2 := h.mem, h.s;
    Finish(h, g, sz, islr);
    FreeingEnds(mem0, s0, p, mem2, s2, g, h.mem, h.s);
    assert FrontMerged(s1, s2, g) && Settles(s2, h.s, g);
  }

  /** fREe away from `top`. */
  method FreeIntoBins(h: Heap, p: int, hd: int, sz: int, next: int, nextsz: int)
    requires h.Valid() && Live(h.s, p) && hd == Head(h.mem, p) && sz == h.s.size[p]
    requires next == Next(h.s, p) && next != h.s.top && next in h.s.size && nextsz == h.s.size[next]
    modifies h`mem, h`s, h`binblocks
    ensures h.Valid() && Released(old(h.mem), old(h.s), h.mem, h.s, p)
    ensures h.s.top == old(h.s).top && h.s.size[h.s.top] == old(h.s).size[old(h.s).top]
    ensures Freed(old(h.s), h.s, p)
  {
    ghost var mem0, s0 := h.mem, h.s;
    OpenGap(h.mem, h.s, p);
    SetBitAfter(h, p, sz, 0);
    var g, gsz, islr := FreeBack(h, p, hd, sz, mem0, s0);
    ghost var s1 := h.s;
    FreeForward(h, g, gsz, next, nextsz, islr, mem0, s0, p);
    ghost var s2 :| FrontMerged(s1, s2, g) && Settles(s2, h.s, g);
    assert BackMerged(s0, s1, p, g);
  }

  // ------------------------------------------------------- the end of the arena

  /** sbrk: 0 on failure */
  method Sbrk(h: Heap, increment: int) returns (r: int)
    modifies h`brk
    ensures var end := (old(h.brk) + increment) % WORD_LIMIT;
            if h.lo <= end <= h.hi then r == old(h.brk) && h.brk == end else r == 0 && h.brk == old(h.brk)
  {
    var end := (h.brk + increment) % WORD_LIMIT;
    if end < h.lo || end > h.hi { return 0; }
    r := h.brk;
    h.brk := end;
  }

  /** The part of `top` that malloc_trim gives back, in the unsigned arithmetic
      it is computed in and read as a signed number. */
  function TrimExtra(top_size: int, pad: int): int {
    var pages := ((top_size - pad - MINSIZE + (PAGE - 1)) % WORD_LIMIT / PAGE - 1) % WORD_LIMIT;
    Signed(pages * PAGE % WORD_LIMIT)
  }

  /** The heap stays in order: nothing is released, or a chunk of `top` remains. */
  predicate TrimIntact(top_size: int, pad: int) {
    TrimExtra(top_size, pad) < PAGE || TrimExtra(top_size, pad) <= top_size - MINSIZE
  }

  /** `malloc_trim` leaves the padding and a minimal chunk, and at most a page
      more. */
  predicate TrimLeaves(top_size: int, pad: int) {
    TrimExtra(top_size, pad) < PAGE
    || pad + MINSIZE <= top_size - TrimExtra(top_size, pad) <= pad + MINSIZE + PAGE
  }

  /** The unsigned subtraction has wrapped to a number that is positive when it
      is read as a signed one, and is two pages at least. */
  predicate TrimWraps(top_size: int, pad: int) {
    pad >= top_size + 0x7FFF_FFF0 && top_size + 4079 + (WORD_LIMIT - pad) >= 2 * PAGE
  }

  /** The padding is left exactly when the subtraction does not wrap like that;
      when it does, the heap stays in order exactly when what is left of the last
      page covers the distance of the padding from the word size. */
  lemma TrimExtraIs(top_size: int, pad: int)
    requires MINSIZE <= top_size <= 0x7FFF_0000 && 0 <= pad < WORD_LIMIT
    ensures TrimExtra(top_size, pad) % PAGE == 0
    ensures TrimLeaves(top_size, pad) <==> !TrimWraps(top_size, pad)
    ensures TrimIntact(top_size, pad) <==>
            (TrimWraps(top_size, pad) ==> WORD_LIMIT - pad - 1 <= (top_size + 4079 + (WORD_LIMIT - pad)) % PAGE)
  {
    var x := top_size - pad - MINSIZE + (PAGE - 1);
    var u := x % WORD_LIMIT;
    assert u == if x >= 0 then x else x + WORD_LIMIT;
    var q := u / PAGE;
    assert q * PAGE <= u < q * PAGE + PAGE && u % PAGE == u - q * PAGE;
    if q == 0 {
      assert (q - 1) % WORD_LIMIT == WORD_LIMIT - 1;
      assert (WORD_LIMIT - 1) * PAGE % WORD_LIMIT == WORD_LIMIT - PAGE;
    } else {
      assert (q - 1) % WORD_LIMIT == q - 1;
      assert (q - 1) * PAGE % WORD_LIMIT == (q - 1) * PAGE;
    }
  }

  /** A `top` of 128 KB and a padding of two pages below the word size: more is
      asked back than `top` has. */
  lemma TrimOverreach()
    ensures TrimExtra(0x20000, 0xFFFF_E000) == 0x21000 && !TrimIntact(0x20000, 0xFFFF_E000)
  {
  }

  /** What `top` says of itself does not fit the break. */
  ghost predicate TopBroken(mem: Memory, top: int, brk: int) {
    brk - top < MINSIZE || ChunkSize(mem, top) != brk - top
  }

  lemma ValidTop(h: Heap)
    requires h.Valid()
    ensures !TopBroken(h.mem, h.top, h.brk)
  {
    TopTells(h.mem, h.s);
  }

  /** The break `brk` once `top`, which begins at `at` and ended at `b`, has been
      trimmed if it was large. */
  predicate Trimmed(b: int, at: int, brk: int) {
    brk == b - if b - at >= TRIM_THRESHOLD then TrimExtra(b - at, 0) else 0
  }

  /** `top` is trimmed from 128 KB on. */
  lemma TrimmedFrom(b: int, at: int, brk: int)
    requires b - at <= 0x7FFF_0000 && Trimmed(b, at, brk)
    ensures brk <= b && (brk == b <==> b - at < 0x20000)
  {
    if b - at >= TRIM_THRESHOLD { BigTopTrimmed(b - at); }
  }

  /** malloc_trim.  When it would release too much, sbrk either moves the break
      below what `top` needs, so that blocks in use are given away, or answers 0,
      which is taken for success: `top` is made smaller than it is. */
  method Trim(h: Heap, pad: int) returns (r: int)
    requires h.Valid() && 0 <= pad < WORD_LIMIT
    modifies h`mem, h`s, h`brk
    ensures r == if TrimExtra(old(h.s).size[old(h.s).top], pad) < PAGE then 0 else 1
    ensures r == 0 ==> h.Valid() && h.mem == old(h.mem) && h.s == old(h.s) && h.brk == old(h.brk)
    ensures r == 1 ==>
              GivenBack(old(h.mem), old(h.brk), h, old(h.s).size[old(h.s).top],
              TrimExtra(old(h.s).size[old(h.s).top], pad))
    ensures TrimIntact(old(h.s).size[old(h.s).top], pad) ==>
              h.Valid() && Released(old(h.mem), old(h.s), h.mem, h.s, NOGAP)
              && h.s == Resized(old(h.s), h.s.size[h.s.top]) && h.s.top == old(h.s).top
              && h.s.size[h.s.top] == old(h.s).size[h.s.top] - (old(h.brk) - h.brk)
              && h.brk == old(h.brk) - if r == 1 then TrimExtra(old(h.s).size[h.s.top], pad) else 0
    ensures !TrimIntact(old(h.s).size[old(h.s).top], pad) ==> TopBroken(h.mem, h.top, h.brk)
    ensures r == 1 && TrimLeaves(old(h.s).size[old(h.s).top], pad) ==>
              pad + MINSIZE <= h.s.size[h.s.top] <= pad + MINSIZE + PAGE
  {
    hide Tags, Links, Binned, Indexed, TrimExtra, Released, ChunkSize, GivenBack, TopBroken;
    TopTells(h.mem, h.s);
    TopInside(h.s);
    hide Tiled;
    var top_size := ChunkSize(h.mem, h.top);
    var extra := TrimExtra(top_size, pad);
    TrimExtraIs(top_size, pad);
    if extra < PAGE {
      return 0;
    }
    var current_brk := Sbrk(h, 0);
    NoWrap(h.brk);
    if current_brk != h.top + top_size {
      return 0;
    }
    ExtraIsLong(top_size, pad);
    Release(h, top_size, extra);
    r := 1;
  }

  lemma ExtraIsLong(top_size: int, pad: int)
    ensures TrimExtra(top_size, pad) < LONG_LIMIT
  {
  }

  /** The break has moved if sbrk can move it, and `top` says that it has. */
  ghost predicate GivenBack(mem: Memory, brk: int, h: Heap, top_size: int, extra: int)
    reads h
  {
    h.mem == mem[h.top + 4 := (top_size - extra) % WORD_LIMIT + 1]
    && h.brk == if h.lo <= (brk - extra) % WORD_LIMIT <= h.hi then (brk - extra) % WORD_LIMIT else brk
  }

  /** The end of malloc_trim.  A failing sbrk answers 0 and not -1, so that the
      branch for failure is never taken. */
  method Release(h: Heap, top_size: int, extra: int)
    requires h.Valid() && top_size == h.s.size[h.s.top] && extra % PAGE == 0 && PAGE <= extra < LONG_LIMIT
    modifies h`mem, h`s, h`brk
    ensures GivenBack(old(h.mem), old(h.brk), h, top_size, extra)
    ensures if extra <= top_size - MINSIZE
            then h.Valid() && Released(old(h.mem), old(h.s), h.mem, h.s, NOGAP)
                 && h.s == Resized(old(h.s), top_size - extra) && h.brk == old(h.brk) - extra
            else TopBroken(h.mem, h.top, h.brk)
  {
    hide Tags, Links, Binned, Indexed, Released, ChunkSize, TopBroken;
    ghost var mem0, brk0 := h.mem, h.brk;
    TopTells(h.mem, h.s);
    TopInside(h.s);
    hide Tiled;
    var new_brk := Sbrk(h, -extra);
    assert new_brk != WORD_LIMIT - 1 by { NotMinusOne(brk0); }
    if extra <= top_size - MINSIZE {
      PagesAligned(brk0, extra);
      NoWrap(brk0 - extra);
      NoWrap(top_size - extra);
      PageAligned(extra);
      SumAligned(top_size, extra);
      TrimTags(h.mem, h.s, top_size - extra);
    } else {
      PageAligned(extra);
      SumAligned(top_size, extra);
      CutTooFar(h.mem, h.top, h.lo, h.hi, brk0, top_size, extra);
    }
    h.mem := h.mem[h.top + 4 := (top_size - extra) % WORD_LIMIT + 1];
    h.s := if extra <= top_size - MINSIZE then Resized(h.s, top_size - extra) else h.s;
  }

  lemma NotMinusOne(brk: int)
    requires brk % PAGE == 0
    ensures brk != WORD_LIMIT - 1
  {
  }

  lemma CutTooFar(mem: Memory, top: int, lo: int, hi: int, brk: int, top_size: int, extra: int)
    requires lo <= top && 0 <= top && 0 <= top_size && top + top_size == brk <= hi < WORD_LIMIT
             && hi - lo <= 0x7FFF_0000
    requires PAGE <= extra < LONG_LIMIT && extra > top_size - MINSIZE && (top_size - extra) % 8 == 0
    ensures var brk' := if lo <= (brk - extra) % WORD_LIMIT <= hi then (brk - extra) % WORD_LIMIT else brk;
            TopBroken(mem[top + 4 := (top_size - extra) % WORD_LIMIT + 1], top, brk')
  {
    var v := (top_size - extra) % WORD_LIMIT;
    assert v == if top_size >= extra then top_size - extra else top_size - extra + WORD_LIMIT;
    assert ChunkSize(mem[top + 4 := v + 1], top) == (v + 1) / 4 * 4;
    var k := (top_size - extra) / 8;
    assert v == 8 * (if top_size >= extra then k else k + 0x2000_0000);
  }

  lemma BigTopTrimmed(size: int)
    requires TRIM_THRESHOLD <= size <= 0x7FFF_0000
    ensures TrimExtra(size, 0) >= PAGE
  {
  }

  lemma NoWrap(x: int)
    requires 0 <= x < WORD_LIMIT
    ensures x % WORD_LIMIT == x
  {
  }

  lemma PagesAligned(a: int, b: int)
    requires a % PAGE == 0 && b % PAGE == 0
    ensures (a + b) % PAGE == 0 && (a - b) % PAGE == 0
  {
    var i, j := a / PAGE, b / PAGE;
    assert a + b == PAGE * (i + j) && a - b == PAGE * (i - j);
  }

  lemma TopInside(s: Shape)
    requires Tiled(s)
    ensures s.top in s.size && 0 < AV_END <= s.base <= s.top
  {
    assert ChunkOK(s, s.top);
  }

  lemma TopTells(mem: Memory, s: Shape)
    requires Tiled(s) && Tags(mem, s, NOGAP)
    ensures ChunkSize(mem, s.top) == s.size[s.top] && s.size[s.top] % 8 == 0 && s.size[s.top] >= MINSIZE
            && s.base <= s.top
    ensures Resized(s, s.size[s.top]) == s && Released(mem, s, mem, s, NOGAP)
  {
    NoChunk(s);
    assert ChunkOK(s, s.top);
    HeadTells(mem, s, NOGAP, s.top);
  }

  lemma TrimTags(mem: Memory, s: Shape, size: int)
    requires Tiled(s) && Binned(s) && Links(mem, s) && Tags(mem, s, NOGAP) && size % 8 == 0 && size >= MINSIZE
    ensures var mem', t := mem[s.top + 4 := size + 1], Resized(s, size);
            Tiled(t) && Binned(t) && Links(mem', t) && Tags(mem', t, NOGAP) && Released(mem, s, mem', t, NOGAP)
  {
    ResizeTop(mem, s, size);
    ResizedOK(s, size);
    TagKeepsBase(mem, s, s.top, size + 1);
    KeepsTag(mem, s, s.top, size + 1, NOGAP);
    var mem', t := mem[s.top + 4 := size + 1], Resized(s, size);
    assert t.bins == s.bins;
    NoChunk(s);
    forall q | Live(s, q) && q != NOGAP
      ensures Live(t, q) && t.size[q] == s.size[q] && SameRoom(mem, mem', s, q)
    {
      assert Live(s, q);
    }
  }

  /** The block before `top` becomes part of it. */
  lemma TopJoined(mem: Memory, s: Shape, g: int)
    requires Tiled(s) && Binned(s) && Links(mem, s) && Tags(mem, s, g) && Live(s, g) && Next(s, g) == s.top
             && Bit(mem, g) == 1
    ensures s.top in s.size
    ensures var mem', t := mem[g + 4 := s.size[g] + s.size[s.top] + 1], Joined(s, g);
            Tiled(t) && Binned(t) && Links(mem', t) && Tags(mem', t, NOGAP) && t.top == g && t.base == s.base
            && t.bins == s.bins
            && t.size[g] == s.size[g] + s.size[s.top] && Released(mem, s, mem', t, g) && Next(t, g) == Next(s, s.top)
  {
    assert ChunkOK(s, g);
    assert ChunkOK(s, s.top);
    JoinTop(mem, s, g);
    JoinedOK(s, g);
    TagKeepsBase(mem, s, g, s.size[g] + s.size[s.top] + 1);
    KeepsTag(mem, s, g, s.size[g] + s.size[s.top] + 1, NOGAP);
    NoChunk(s);
    var mem', t := mem[g + 4 := s.size[g] + s.size[s.top] + 1], Joined(s, g);
    forall q | Live(s, q) && q != g
      ensures Live(t, q) && t.size[q] == s.size[q] && SameRoom(mem, mem', s, q)
    {
      assert Live(s, q);
    }
  }

  /** The chunk in between, with `top` after it, becomes `top`. */
  method MergeTop(h: Heap, g: int, sz: int)
    requires h.Ready(g) && Live(h.s, g) && Next(h.s, g) == h.s.top && Bit(h.mem, g) == 1
             && sz == h.s.size[g] + h.s.size[h.s.top]
    modifies h`mem, h`s, h`top
    ensures h.Valid() && Released(old(h.mem), old(h.s), h.mem, h.s, g) && h.s.top == g && h.s.size[g] == sz
    ensures g in old(h.s).size && Next(old(h.s), g) in old(h.s).size && h.s == Joined(old(h.s), g)
  {
    hide Tags, Links, Binned, Tiled, Indexed, Released, Keeps;
    TopJoined(h.mem, h.s, g);
    h.mem := h.mem[g + 4 := sz + 1];
    h.top := g;
    h.s := Joined(h.s, g);
  }

  lemma ReleasedMore(mem0: Memory, s0: Shape, p: int, mem: Memory, s: Shape, g: int, mem': Memory, s': Shape)
    requires Tiled(s0) && LiveChange(s0, s, p, g) && Keeps(mem0, s0, mem, s, p) && !Live(s0, g)
             && Released(mem, s, mem', s', g)
    ensures Released(mem0, s0, mem', s', p)
  {
    NoChunk(s0);
    KeepsStep(mem0, s0, mem, s, mem', s', p, g);
    forall x ensures Live(s', x) <==> Live(s0, x) && x != p { assert Live(s', x) <==> Live(s, x) && x != g; }
  }

  lemma ReleasedThen(mem0: Memory, s0: Shape, p: int, mem: Memory, s: Shape, mem': Memory, s': Shape)
    requires Tiled(s0) && Tiled(s) && Released(mem0, s0, mem, s, p) && Released(mem, s, mem', s', NOGAP)
    ensures Released(mem0, s0, mem', s', p)
  {
    NoChunk(s0);
    NoChunk(s);
    KeepsStep(mem0, s0, mem, s, mem', s', p, NOGAP);
    forall x ensures Live(s', x) <==> Live(s0, x) && x != p { assert Live(s', x) <==> Live(s, x) && x != NOGAP; }
  }

  /** The block, with the free chunk before it if there is one, goes into `top`. */
  method IntoTop(h: Heap, p: int, hd: int, sz0: int, nextsz: int) returns (sz: int)
    requires h.Valid() && Live(h.s, p) && hd == Head(h.mem, p) && sz0 == h.s.size[p] && Next(h.s, p) == h.s.top
             && nextsz == h.s.size[h.s.top]
    modifies h`mem, h`s, h`top
    ensures h.Valid() && Released(old(h.mem), old(h.s), h.mem, h.s, p)
    ensures sz == h.s.size[h.s.top] == h.brk - h.s.top && h.s.top <= p < old(h.s).top
    ensures FreedTop(old(h.s), h.s, p, h.brk)
  {
    OneBefore(h.mem, h.s, p, NOGAP);
    hide Tags, Links, Binned, Indexed, Released, Keeps, LiveChange, Tiled;
    ghost var mem0, s0 := h.mem, h.s;
    BeforeNext(h.s, p);
    OpenGap(h.mem, h.s, p);
    sz := sz0 + nextsz;
    if hd % 2 == 0 {
      var q, prevsz := TakeBack(h, p);
      sz := sz + prevsz;
      ghost var mem1, s1 := h.mem, h.s;
      MergeTop(h, q, sz);
      ReleasedMore(mem0, s0, p, mem1, s1, q, h.mem, h.s);
      assert BackTaken(s0, s1, p, q) && TopTaken(s1, h.s, q, h.brk);
    } else {
      MergeTop(h, p, sz);
      assert BackTaken(s0, s0, p, p) && TopTaken(s0, h.s, p, h.brk);
    }
  }

  lemma BeforeNext(s: Shape, p: int)
    requires Tiled(s) && p in s.size
    ensures p < Next(s, p)
  {
    assert ChunkOK(s, p);
  }

  /** fREe next to `top`. */
  method FreeIntoTop(h: Heap, p: int, hd: int, sz0: int, nextsz: int)
    requires h.Valid() && Live(h.s, p) && hd == Head(h.mem, p) && sz0 == h.s.size[p] && Next(h.s, p) == h.s.top
             && nextsz == h.s.size[h.s.top]
    modifies h`mem, h`s, h`top, h`brk
    ensures h.Valid() && Released(old(h.mem), old(h.s), h.mem, h.s, p)
    ensures h.s.size[h.s.top] < TRIM_THRESHOLD
    ensures h.s.top <= p < old(h.s).top && Trimmed(old(h.brk), h.s.top, h.brk)
    ensures FreedTop(old(h.s), h.s, p, h.brk)
  {
    hide Tags, Links, Binned, Indexed, Released, Keeps, LiveChange, TrimExtra, FreedTop;
    ghost var mem0, s0 := h.mem, h.s;
    var sz := IntoTop(h, p, hd, sz0, nextsz);
    if sz >= TRIM_THRESHOLD {
      ghost var mem1, s1 := h.mem, h.s;
      TrimTop(h);
      ReleasedThen(mem0, s0, p, mem1, s1, h.mem, h.s);
      TopTrimmed(s0, s1, h.s, p, old(h.brk), h.brk);
    }
  }

  lemma TopTrimmed(s: Shape, s1: Shape, t: Shape, p: int, brk1: int, brk: int)
    requires FreedTop(s, s1, p, brk1) && t == Resized(s1, brk - s1.top)
    ensures FreedTop(s, t, p, brk)
  {
    var u, g :| BackTaken(s, u, p, g) && TopTaken(u, s1, g, brk1);
    assert Joined(u, g).top == g;
    assert TopTaken(u, t, g, brk);
  }

  /** `malloc_trim(top_pad)`, when `top` has become large. */
  method TrimTop(h: Heap)
    requires h.Valid() && h.s.size[h.s.top] >= TRIM_THRESHOLD
    modifies h`mem, h`s, h`brk
    ensures h.Valid() && Released(old(h.mem), old(h.s), h.mem, h.s, NOGAP)
    ensures h.s.size[h.s.top] < TRIM_THRESHOLD && h.s.top == old(h.s).top
    ensures h.brk == old(h.brk) - TrimExtra(old(h.s).size[old(h.s).top], 0)
    ensures h.s == Resized(old(h.s), h.brk - h.s.top)
  {
    hide Tags, Links, Binned, Indexed, Released, GivenBack, TopBroken, TrimExtra, Resized;
    TopInside(h.s);
    hide Tiled;
    TrimExtraIs(h.s.size[h.s.top], 0);
    BigTopTrimmed(h.s.size[h.s.top]);
    var r := Trim(h, 0);
  }

  /** fREe: the block, and nothing else, ceases to be in use; what the other
      blocks hold does not change. */
  method Free(h: Heap, ptr: int)
    requires h.Valid() && (ptr != 0 ==> Live(h.s, ptr - 8))
    modifies h`mem, h`s, h`top, h`brk, h`binblocks
    ensures h.Valid()
    ensures if ptr == 0 then h.mem == old(h.mem) && h.s == old(h.s) && h.brk == old(h.brk)
            else Released(old(h.mem), old(h.s), h.mem, h.s, ptr - 8) && FreedAny(old(h.s), h.s, ptr - 8, h.brk)
    ensures (h.s.top == old(h.s).top && h.brk == old(h.brk))
            || (h.s.top <= ptr - 8 < old(h.s).top && Trimmed(old(h.brk), h.s.top, h.brk))
  {
    if ptr == 0 { return; }
    hide Tags, Links, Binned, Indexed, Released, Freed, FreedTop;
    var p := ptr - 8;
    var hd := Head(h.mem, p);
    BlockTells(h.mem, h.s, p);
    var sz := hd / 2 * 2;
    var next := p + sz;
    var nextsz := ChunkSize(h.mem, next);
    if next == h.top {
      FreeIntoTop(h, p, hd, sz, nextsz);
    } else {
      FreeIntoBins(h, p, hd, sz, next, nextsz);
    }
  }

  /** What the heads of a block and of the chunk after it say. */
  lemma BlockTells(mem: Memory, s: Shape, p: int)
    requires Tiled(s) && Tags(mem, s, NOGAP) && Live(s, p)
    ensures Head(mem, p) / 2 * 2 == s.size[p] && ChunkSize(mem, p) == s.size[p]
    ensures Next(s, p) in s.size && ChunkSize(mem, Next(s, p)) == s.size[Next(s, p)]
            && Head(mem, Next(s, p)) / 2 * 2 == s.size[Next(s, p)]
  {
    NoChunk(s);
    assert ChunkOK(s, p);
    HeadTells(mem, s, NOGAP, p);
    HeadTells(mem, s, NOGAP, Next(s, p));
  }
}
