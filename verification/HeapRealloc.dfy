// rEALLOc: growing a block in place, backwards or elsewhere, and shrinking it.
module HeapRealloc {
  import opened HeapWords
  import opened HeapShape
  import opened HeapTags
  import opened HeapLinks
  import opened HeapState
  import opened HeapSteps
  import opened HeapFree
  import opened HeapMalloc

  // ----------------------------------------------------------- block contents

  /** The word `a` bytes into chunk `p` */
  function At(mem: Memory, p: int, a: int): int {
    W(mem, p + a)
  }

  /** The first words of the room of `p` are those of the room of `q` now. */
  ghost predicate Moved(mem: Memory, p: int, mem': Memory, q: int, size: int) {
    forall a {:trigger At(mem', q, a)} {:trigger At(mem, p, a)} :: 8 <= a < size + 4 && a % 4 == 0 ==>
        At(mem', q, a) == At(mem, p, a)
  }

  /** Only words inside chunk `q`, past its head, have been written. */
  ghost predicate OnlyInside(mem: Memory, mem': Memory, s: Shape, q: int) {
    q in s.size && forall a {:trigger W(mem', a)} :: !(q + 8 <= a < q + s.size[q]) ==> W(mem', a) == W(mem, a)
  }

  lemma InsideKeeps(mem: Memory, mem': Memory, s: Shape, g: int, q: int)
    requires Tiled(s) && Binned(s) && Links(mem, s) && Tags(mem, s, g) && q in s.size && q !in s.home
             && OnlyInside(mem, mem', s, q)
    ensures Links(mem', s) && Tags(mem', s, g) && Keeps(mem, s, mem', s, q) && SameTags(mem, mem', s)
  {
    assert ChunkOK(s, q);
    forall c | c in s.size ensures Head(mem', c) == Head(mem, c) && PrevSize(mem', c) == PrevSize(mem, c) {
      assert ChunkOK(s, c) && Separate(s, c, q) && Separate(s, q, c);
    }
    TagsSame(mem, mem', s, g);
    forall x | IsNode(s, x) ensures Fd(mem', x) == Fd(mem, x) && Bk(mem', x) == Bk(mem, x) {
      ChunkApart16(s, q, x);
    }
    LinksSame(mem, mem', s);
    forall x | Live(s, x) && x != q ensures SameRoom(mem, mem', s, x) {
      assert ChunkOK(s, x) && Separate(s, x, q) && Separate(s, q, x);
    }
  }

  /** The link fields of a node are not in a chunk that is in no bin. */
  lemma ChunkApart16(s: Shape, q: int, x: int)
    requires Tiled(s) && q in s.size && q !in s.home && IsNode(s, x)
    ensures x + 16 <= q || q + s.size[q] <= x
  {
    assert ChunkOK(s, q);
    if x in s.home { assert ChunkOK(s, x) && Separate(s, x, q) && Separate(s, q, x); }
  }

  /** MALLOC_COPY, word by word upwards: right even when the blocks overlap, as
      long as the destination is the lower one. */
  method CopyWords(h: Heap, dst: int, src: int, nbytes: int)
    requires nbytes % 4 == 0 && nbytes >= 0 && (dst <= src || src + nbytes <= dst)
    modifies h`mem
    ensures forall a {:trigger At(h.mem, dst, a)} :: 0 <= a < nbytes && a % 4 == 0 ==>
              At(h.mem, dst, a) == At(old(h.mem), src, a)
    ensures forall a {:trigger W(h.mem, a)} :: !(dst <= a < dst + nbytes) ==> W(h.mem, a) == W(old(h.mem), a)
  {
    var i := 0;
    while i < nbytes
      invariant 0 <= i <= nbytes && i % 4 == 0
      invariant forall a {:trigger At(h.mem, dst, a)} :: 0 <= a < i && a % 4 == 0 ==>
                  At(h.mem, dst, a) == At(old(h.mem), src, a)
      invariant forall a {:trigger W(h.mem, a)} :: !(dst <= a < dst + i) ==> W(h.mem, a) == W(old(h.mem), a)
    {
      assert W(h.mem, src + i) == W(old(h.mem), src + i);
      ghost var mem1 := h.mem;
      h.mem := h.mem[dst + i := W(h.mem, src + i)];
      forall a | 0 <= a < i + 4 && a % 4 == 0 ensures At(h.mem, dst, a) == At(old(h.mem), src, a) {
        WordSteps(a, i);
        assert a != i ==> At(mem1, dst, a) == At(old(h.mem), src, a);
      }
      forall a | !(dst <= a < dst + i + 4) ensures W(h.mem, a) == W(old(h.mem), a) {
        assert W(mem1, a) == W(old(h.mem), a);
      }
      WordSteps(i, i);
      i := i + 4;
    }
  }

  lemma WordSteps(a: int, i: int)
    requires a % 4 == 0 && i % 4 == 0
    ensures a < i + 4 ==> a <= i
    ensures (i + 4) % 4 == 0
  {
  }

  // ------------------------------------------------------- cutting to size

  /** The block of `size` bytes is cut to `nb`, the rest freed if it can be a
      chunk; nothing else changes. */
  ghost predicate Fitted(mem: Memory, s: Shape, mem': Memory, s': Shape, p: int, nb: int) {
    Live(s', p) && nb <= s'.size[p] < nb + MINSIZE && LiveChange(s, s', NOGAP, NOGAP) && Keeps(mem, s, mem', s', p)
    && Moved(mem, p, mem', p, nb)
  }

  /** The break is where it was, or has moved with the trimming of `top`. */
  predicate Settled(b: int, top: int, brk: int) {
    brk == b || Trimmed(b, top, brk)
  }

  /** Block `p` is cut to `nb`, and what is left of it, if that can be a chunk, is
      freed. */
  ghost predicate Cutdown(s: Shape, t: Shape, p: int, nb: int, brk: int) {
    p in s.size
    && if s.size[p] - nb >= MINSIZE then FreedAny(Cut(s, p, nb), t, p + nb, brk) else t == s
  }

  /** The end of rEALLOc, from label `split` on: gives back what is too much. */
  method SplitBlock(h: Heap, newp: int, newsize: int, nb: int)
    requires h.Ready(newp) && Live(h.s, newp) && newsize == h.s.size[newp] && nb % 8 == 0 && MINSIZE <= nb <= newsize
    modifies h`mem, h`s, h`top, h`brk, h`binblocks
    ensures h.Valid() && Fitted(old(h.mem), old(h.s), h.mem, h.s, newp, nb)
    ensures Settled(old(h.brk), h.s.top, h.brk) && Cutdown(old(h.s), h.s, newp, nb, h.brk)
  {
    hide FreedAny;
    if newsize - nb >= MINSIZE {
      SplitOff(h, newp, newsize, nb);
    } else {
      KeepWhole(h, newp, newsize, nb);
    }
  }

  method KeepWhole(h: Heap, newp: int, newsize: int, nb: int)
    requires h.Ready(newp) && Live(h.s, newp) && newsize == h.s.size[newp] && nb % 8 == 0
             && MINSIZE <= nb <= newsize < nb + MINSIZE
    modifies h`mem
    ensures h.Valid() && Fitted(old(h.mem), h.s, h.mem, h.s, newp, nb)
  {
    hide Tags, Links, Binned, Indexed, Keeps;
    ghost var mem0, s := h.mem, h.s;
    NoChunk(s);
    assert ChunkOK(s, newp);
    TagBit(newsize, Bit(h.mem, newp));
    SetHead(h, newp, newsize + Head(h.mem, newp) % 2);
    ghost var mem1 := h.mem;
    SetBitAfter(h, newp, newsize, 1);
    CloseLive(h.mem, s, newp);
    KeepsThen(mem0, s, mem1, s, h.mem, s);
    KeptRoom(mem0, s, h.mem, s, newp);
    RoomMoved(mem0, h.mem, s, newp, nb);
    KeepsMore(mem0, s, h.mem, s, newp);
  }

  lemma RoomMoved(mem: Memory, mem': Memory, s: Shape, p: int, size: int)
    requires Tiled(s) && p in s.size && SameRoom(mem, mem', s, p) && size <= s.size[p]
    ensures Moved(mem, p, mem', p, size)
  {
    assert ChunkOK(s, p);
    forall a | 8 <= a < size + 4 && a % 4 == 0 ensures At(mem', p, a) == At(mem, p, a) {
      assert InRoom(s, p, p + a);
      WordsAligned(p, a);
    }
  }

  lemma WordsAligned(p: int, a: int)
    requires p % 8 == 0 && a % 4 == 0
    ensures (p + a) % 4 == 0
  {
    var k := Eighths(p);
    var j := a / 4;
    assert p + a == 4 * (2 * k + j);
  }

  method SplitOff(h: Heap, newp: int, newsize: int, nb: int)
    requires h.Ready(newp) && Live(h.s, newp) && newsize == h.s.size[newp] && nb % 8 == 0
             && MINSIZE <= nb <= newsize - MINSIZE
    modifies h`mem, h`s, h`top, h`brk, h`binblocks
    ensures h.Valid() && Fitted(old(h.mem), old(h.s), h.mem, h.s, newp, nb)
    ensures Settled(old(h.brk), h.s.top, h.brk)
    ensures newp in old(h.s).size && FreedAny(Cut(old(h.s), newp, nb), h.s, newp + nb, h.brk)
  {
    hide Tags, Links, Binned, Indexed, Keeps, Released, Moved, LiveChange, FreedAny;
    ghost var mem0, s0 := h.mem, h.s;
    assert ChunkOK(s0, newp);
    var remainder := newp + nb;
    var rsize := newsize - nb;
    CutInUse(mem0, s0, newp, nb, h.binblocks);
    h.mem := h.mem[newp + 4 := nb + Head(h.mem, newp) % 2];
    h.mem := h.mem[remainder + 4 := rsize + 1];
    h.s := Cut(s0, newp, nb);
    ghost var mem1, s1 := h.mem, h.s;
    SetBitAfter(h, remainder, rsize, 1);
    CloseLive(h.mem, s1, remainder);
    ghost var mem2 := h.mem;
    Free(h, remainder + 8);
    SplitFitted(mem0, s0, mem1, s1, mem2, h.mem, h.s, newp, nb);
  }

  /** A block in use is cut in two blocks in use; the upper one's in-use bit is
      still to be set. */
  lemma CutInUse(mem: Memory, s: Shape, p: int, nb: int, binblocks: nat)
    requires Tiled(s) && Binned(s) && Links(mem, s) && Tags(mem, s, p) && Live(s, p) && Indexed(binblocks, s.bins)
    requires nb % 8 == 0 && MINSIZE <= nb <= s.size[p] - MINSIZE
    ensures var r, rs := p + nb, s.size[p] - nb;
            var mem', t := mem[p + 4 := nb + Bit(mem, p)][r + 4 := rs + 1], Cut(s, p, nb);
            Tiled(t) && Binned(t) && Links(mem', t) && Tags(mem', t, r) && Live(t, p) && Live(t, r) && r !in s.size
            && Head(mem', r) == rs + 1 && Bit(mem', r) == 1 && t.size[r] == rs && Indexed(binblocks, t.bins)
            && LiveChange(s, t, NOGAP, r) && Keeps(mem, s, mem', t, p) && Moved(mem, p, mem', p, nb)
  {
    CutOK(s, p, nb);
    CutGap(mem, s, p, nb);
    CutKeeps(mem, s, p, nb);
    CutLives(s, p, nb);
  }

  lemma CutLives(s: Shape, p: int, nb: int)
    requires Tiled(s) && Live(s, p) && p + nb !in s.size && nb > 0
    ensures var t := Cut(s, p, nb);
            Live(t, p) && Live(t, p + nb) && LiveChange(s, t, NOGAP, p + nb)
            && t.size[p + nb] == s.size[p] - nb
  {
    NoChunk(s);
    assert ChunkOK(s, p);
  }

  lemma CutKeeps(mem: Memory, s: Shape, p: int, nb: int)
    requires Tiled(s) && Binned(s) && Links(mem, s) && Live(s, p) && p + nb !in s.size && nb > 0
    requires Tiled(Cut(s, p, nb)) && Binned(Cut(s, p, nb))
    ensures var r, rs := p + nb, s.size[p] - nb;
            var mem', t := mem[p + 4 := nb + Bit(mem, p)][r + 4 := rs + 1], Cut(s, p, nb);
            Links(mem', t) && Keeps(mem, s, mem', t, p) && Moved(mem, p, mem', p, nb)
  {
    hide Head, Bit;
    var rs := s.size[p] - nb;
    var mem1 := mem[p + 4 := nb + Bit(mem, p)];
    var mem', t := mem1[p + nb + 4 := rs + 1], Cut(s, p, nb);
    TagKeepsBase(mem, s, p, nb + Bit(mem, p));
    KeepsTag(mem, s, p, nb + Bit(mem, p), NOGAP);
    UpperRest(mem1, s, t, p, nb, rs + 1);
    NoChunk(s);
    KeepsMore(mem, s, mem1, s, p);
    KeepsStep(mem, s, mem1, s, mem', t, p, p);
    forall a | 8 <= a < nb + 4 && a % 4 == 0 ensures At(mem', p, a) == At(mem, p, a) { }
  }

  lemma UpperRest(mem: Memory, s: Shape, t: Shape, p: int, nb: int, x: int)
    requires Tiled(s) && Tiled(t) && Binned(t) && Links(mem, s) && Live(s, p) && t == Cut(s, p, nb) && p + nb !in s.size
    ensures Links(mem[p + nb + 4 := x], t) && Keeps(mem, s, mem[p + nb + 4 := x], t, p)
  {
    assert Links(mem, t);
    TagKeepsBase(mem, t, p + nb, x);
    KeepsTag(mem, t, p + nb, x, NOGAP);
    NoChunk(t);
    KeepsShape(mem, s, t, p);
    KeepsStep(mem, s, mem, t, mem[p + nb + 4 := x], t, p, NOGAP);
  }

  lemma SplitFitted(mem0: Memory, s0: Shape, mem1: Memory, s1: Shape, mem2: Memory, mem3: Memory, s3: Shape, p: int,
                    nb: int)
    requires Tiled(s0) && Tiled(s1) && Live(s0, p) && Live(s1, p) && s1.size[p] == nb && p + nb !in s0.size && nb > 0
    requires LiveChange(s0, s1, NOGAP, p + nb) && Keeps(mem0, s0, mem1, s1, p) && Moved(mem0, p, mem1, p, nb)
    requires Keeps(mem1, s1, mem2, s1, NOGAP) && Released(mem2, s1, mem3, s3, p + nb)
    ensures Fitted(mem0, s0, mem3, s3, p, nb)
  {
    NoChunk(s0);
    NoChunk(s1);
    KeepsStep(mem0, s0, mem1, s1, mem2, s1, p, NOGAP);
    KeepsStep(mem0, s0, mem2, s1, mem3, s3, p, p + nb);
    KeptRoom(mem1, s1, mem2, s1, p);
    assert Live(s3, p) && s3.size[p] == nb && SameRoom(mem2, mem3, s1, p);
    RoomMoved(mem1, mem2, s1, p, nb);
    RoomMoved(mem2, mem3, s1, p, nb);
    forall x ensures Live(s3, x) <==> Live(s0, x) { assert Live(s3, x) <==> Live(s1, x) && x != p + nb; }
    forall a | 8 <= a < nb + 4 && a % 4 == 0 ensures At(mem3, p, a) == At(mem0, p, a) {
      assert At(mem1, p, a) == At(mem0, p, a) && At(mem2, p, a) == At(mem1, p, a) && At(mem3, p, a) == At(mem2, p, a);
    }
  }

  // ------------------------------------------------------------ growing

  /** How far rEALLOc has got: block `p` of the original state has become part
      of block `g`, still without up-to-date tags, which begins with what `p`
      held. */
  ghost predicate Growing(mem0: Memory, s0: Shape, p: int, mem: Memory, s: Shape, g: int) {
    Live(s0, p) && Live(s, g) && LiveChange(s0, s, p, g) && Keeps(mem0, s0, mem, s, p)
    && Moved(mem0, p, mem, g, s0.size[p])
    && s.size[g] >= s0.size[p] && (g == p || !Live(s0, g))
  }

  lemma GrowingStarts(mem: Memory, s: Shape, p: int)
    requires Tiled(s) && Live(s, p)
    ensures Growing(mem, s, p, mem, s, p)
  {
    NoChunk(s);
  }

  /** Forward into the free chunk after the block. */
  method Forward(h: Heap, p: int, next: int)
    requires h.Ready(p) && Live(h.s, p) && next == Next(h.s, p) && next in h.s.home && next in h.s.size
    modifies h`mem, h`s
    ensures h.Ready(p) && Growing(old(h.mem), old(h.s), p, h.mem, h.s, p)
    ensures h.s.size[p] == old(h.s).size[p] + old(h.s).size[next] && Bit(h.mem, p) == old(Bit(h.mem, p))
    ensures PrevSize(h.mem, p) == old(PrevSize(h.mem, p))
    ensures Binned(old(h.s)) && h.s == Joined(Taken(old(h.s), next), p)
  {
    ghost var mem0, s0 := h.mem, h.s;
    TakeNext(h, p, next);
    RoomMoved(mem0, h.mem, s0, p, s0.size[p]);
    NoChunk(s0);
    assert ChunkOK(s0, next);
    forall x ensures Live(h.s, x) <==> Live(s0, x) { }
  }

  /** Backward into the free chunk before the block, moving what it holds. */
  method Backward(h: Heap, p: int, oldsize: int, ghost mem0: Memory, ghost s0: Shape) returns (newp: int, prevsize: int)
    requires h.Ready(p) && Bit(h.mem, p) == 0 && Tiled(s0) && Growing(mem0, s0, p, h.mem, h.s, p)
             && oldsize == s0.size[p]
    modifies h`mem, h`s
    ensures h.Ready(newp) && Growing(mem0, s0, p, h.mem, h.s, newp)
    ensures newp == p - prevsize && prevsize == old(PrevSize(h.mem, p)) && h.s.size[newp] == old(h.s).size[p] + prevsize
    ensures Bit(h.mem, newp) == 1 && Next(h.s, newp) == Next(old(h.s), p) && h.s.top == old(h.s).top
            && h.s.top in h.s.size
    ensures old(h.s).top in old(h.s).size && h.s.size[h.s.top] == old(h.s).size[old(h.s).top]
    ensures Before(old(h.s), newp, p) && Binned(old(h.s)) && h.s == Joined(Taken(old(h.s), newp), newp)
  {
    hide Tags, Links, Binned, Indexed, Keeps, Moved, LiveChange;
    ghost var mem1, s1 := h.mem, h.s;
    assert ChunkOK(s0, p);
    newp, prevsize := TakeBack(h, p);
    BackRoom(mem0, s0, p, mem1, s1, h.mem, h.s, newp);
    MoveDown(h, newp, p, oldsize, mem0, s0);
  }

  /** Moves what the block holds to the front of the chunk it is part of now. */
  method MoveDown(h: Heap, q: int, p: int, oldsize: int, ghost mem0: Memory, ghost s0: Shape)
    requires h.Ready(q) && Live(h.s, q) && Live(s0, p) && oldsize == s0.size[p] && oldsize <= h.s.size[q] && q <= p
             && !Live(s0, q)
    requires oldsize % 8 == 0 && oldsize >= MINSIZE && q + 8 + oldsize <= q + h.s.size[q]
    requires Moved(mem0, p, h.mem, p, s0.size[p]) && LiveChange(s0, h.s, p, q) && Keeps(mem0, s0, h.mem, h.s, p)
    modifies h`mem
    ensures h.Ready(q) && Growing(mem0, s0, p, h.mem, h.s, q) && Bit(h.mem, q) == old(Bit(h.mem, q))
  {
    hide Tags, Links, Binned, Indexed, Keeps, Moved, LiveChange;
    ghost var mem2, s := h.mem, h.s;
    Words4(oldsize);
    CopyWords(h, q + 8, p + 8, oldsize - 4);
    CopiedInside(mem2, h.mem, s, q, p, oldsize);
    InsideKeeps(mem2, h.mem, s, q, q);
    SameHead(mem2, h.mem, s, q);
    CopiedGrowing(mem0, s0, p, mem2, h.mem, s, q, oldsize);
  }

  lemma Words4(x: int)
    requires x % 8 == 0
    ensures (x - 4) % 4 == 0
  {
    var k := Eighths(x);
    assert x - 4 == 4 * (2 * k - 1);
  }

  /** What the block held is still in its old place. */
  lemma BackRoom(mem0: Memory, s0: Shape, p: int, mem1: Memory, s1: Shape, mem2: Memory, s2: Shape, q: int)
    requires Tiled(s1) && Tiled(s2) && Growing(mem0, s0, p, mem1, s1, p) && SameRoom(mem1, mem2, s1, p)
    requires q in s2.size && s2.size[q] == p - q + s1.size[p] && q < p
    requires LiveChange(s1, s2, p, q) && Keeps(mem1, s1, mem2, s2, p) && !Live(s1, q) && Live(s2, q)
    ensures Moved(mem0, p, mem2, p, s0.size[p]) && LiveChange(s0, s2, p, q) && Keeps(mem0, s0, mem2, s2, p)
            && !Live(s0, q)
    ensures q + 8 <= p + 8 && q + 8 + s0.size[p] <= q + s2.size[q] && p != q
  {
    RoomMoved(mem1, mem2, s1, p, s0.size[p]);
    KeepsStep(mem0, s0, mem1, s1, mem2, s2, p, p);
    assert ChunkOK(s2, q) && ChunkOK(s1, p);
    forall a | 8 <= a < s0.size[p] + 4 && a % 4 == 0 ensures At(mem2, p, a) == At(mem0, p, a) {
      assert At(mem1, p, a) == At(mem0, p, a) && At(mem2, p, a) == At(mem1, p, a);
    }
    forall x
      ensures Live(s2, x) <==> (Live(s0, x) && x != p) || (x == q && q != NOGAP)
    {
      assert Live(s1, x) <==> Live(s0, x) || x == p;
    }
  }

  lemma CopiedInside(mem: Memory, mem': Memory, s: Shape, q: int, p: int, oldsize: int)
    requires q in s.size && q + 8 + oldsize <= q + s.size[q]
    requires forall a {:trigger W(mem', a)} :: !(q + 8 <= a < q + 8 + (oldsize - 4)) ==> W(mem', a) == W(mem, a)
    ensures OnlyInside(mem, mem', s, q)
  {
  }

  lemma CopiedGrowing(mem0: Memory, s0: Shape, p: int, mem2: Memory, mem3: Memory, s2: Shape, q: int, oldsize: int)
    requires Tiled(s2) && Live(s0, p) && Live(s2, q) && oldsize == s0.size[p] && oldsize <= s2.size[q] && !Live(s0, q)
    requires Moved(mem0, p, mem2, p, s0.size[p]) && LiveChange(s0, s2, p, q) && Keeps(mem0, s0, mem2, s2, p)
             && Keeps(mem2, s2, mem3, s2, q)
    requires forall a {:trigger At(mem3, q + 8, a)} :: 0 <= a < oldsize - 4 && a % 4 == 0 ==>
               At(mem3, q + 8, a) == At(mem2, p + 8, a)
    ensures Growing(mem0, s0, p, mem3, s2, q)
  {
    KeepsStep(mem0, s0, mem2, s2, mem3, s2, p, q);
    forall a | 8 <= a < oldsize + 4 && a % 4 == 0 ensures At(mem3, q, a) == At(mem0, p, a) {
      Less8(a);
      assert At(mem3, q + 8, a - 8) == At(mem2, p + 8, a - 8);
      assert At(mem2, p, a) == At(mem0, p, a);
    }
  }

  lemma Less8(a: int)
    requires a % 4 == 0
    ensures (a - 8) % 4 == 0
  {
  }

  // ----------------------------------------------------------- into top

  /** The chunk in between and `top` after it, cut at `nb`. */
  ghost function Shifted(s: Shape, p: int, nb: int): Shape
    requires p in s.size && Next(s, p) in s.size
  {
    Cut(Joined(s, p), p, nb)
  }

  lemma ShiftedOK(s: Shape, p: int, nb: int)
    requires Tiled(s) && Binned(s) && Live(s, p) && Next(s, p) == s.top && nb % 8 == 0
             && MINSIZE <= nb <= s.size[p] + s.size[s.top] - MINSIZE
    ensures var t := Shifted(s, p, nb);
            Tiled(t) && Binned(t) && t.top == p + nb && t.size[p] == nb
            && t.size[t.top] == s.size[p] + s.size[s.top] - nb
            && t.bins == s.bins && t.home == s.home && Next(t, t.top) == Next(s, s.top) && Live(t, p)
            && t.base == s.base
            && LiveChange(s, t, NOGAP, NOGAP) && forall c :: Live(s, c) && c != p ==> t.size[c] == s.size[c]
  {
    NoChunk(s);
    assert ChunkOK(s, p);
    JoinedOK(s, p);
    CutOK(Joined(s, p), p, nb);
    Inside(Joined(s, p), p, p + nb);
  }

  lemma ShiftedTags(mem: Memory, s: Shape, p: int, nb: int)
    requires Tiled(s) && Tags(mem, s, p) && Live(s, p) && Next(s, p) == s.top && nb % 8 == 0
             && MINSIZE <= nb <= s.size[p] + s.size[s.top] - MINSIZE
    requires Tiled(Shifted(s, p, nb))
    ensures var mem' := mem[p + nb + 4 := s.size[p] + s.size[s.top] - nb + 1][p + 4 := nb + Bit(mem, p)];
            Tags(mem', Shifted(s, p, nb), NOGAP)
  {
    var r, rs, t := p + nb, s.size[p] + s.size[s.top] - nb, Shifted(s, p, nb);
    assert ChunkOK(s, p) && ChunkOK(s, s.top) && ChunkOK(t, r);
    NoChunk(t);
    TagBit(rs, 1);
    TagBit(nb, Bit(mem, p));
    var mem' := mem[r + 4 := rs + 1][p + 4 := nb + Bit(mem, p)];
    assert TagOK(mem, s, p, s.top);
    assert Head(mem', r) == rs + 1 && Bit(mem', r) == 1 && Head(mem', p) == nb + Bit(mem, p)
           && Bit(mem', p) == Bit(mem, p);
    forall c | c in t.size ensures TagOK(mem', t, NOGAP, c) {
      if c != r {
        assert TagOK(mem, s, p, c) && ChunkOK(s, c);
        ShiftedTag(mem, mem', s, p, nb, c);
      }
    }
  }

  lemma ShiftedTag(mem: Memory, mem': Memory, s: Shape, p: int, nb: int, c: int)
    requires Tiled(s) && Tags(mem, s, p) && Live(s, p) && Next(s, p) == s.top && 0 < nb && (p + nb) % 8 == 0
    requires Tiled(Shifted(s, p, nb)) && c in Shifted(s, p, nb).size && c != p + nb && c in s.size && c != s.top
    requires mem' == mem[p + nb + 4 := s.size[p] + s.size[s.top] - nb + 1][p + 4 := nb + Bit(mem, p)]
    requires Bit(mem', p) == Bit(mem, p)
    ensures TagOK(mem', Shifted(s, p, nb), NOGAP, c)
  {
    hide TagOK, Shifted;
    var x, y := s.size[p] + s.size[s.top] - nb + 1, nb + Bit(mem, p);
    assert ChunkOK(s, c) && ChunkOK(s, p) && ChunkOK(s, Next(s, c));
    TwoHeads(mem, p + nb, x, p, y, c);
    TwoHeads(mem, p + nb, x, p, y, Next(s, c));
    assert Head(mem', p) == nb + Bit(mem, p);
    ShiftedTagIs(mem, mem', s, p, nb, c);
  }

  lemma ShiftedTagIs(mem: Memory, mem': Memory, s: Shape, p: int, nb: int, c: int)
    requires Tiled(s) && Tags(mem, s, p) && Live(s, p) && Next(s, p) == s.top && 0 < nb
    requires Tiled(Shifted(s, p, nb)) && c in Shifted(s, p, nb).size && c != p + nb && c in s.size && c != s.top
             && Next(s, c) in s.size
    requires Bit(mem', p) == Bit(mem, p) && Head(mem', p) == nb + Bit(mem, p)
    requires forall d :: d == c || d == Next(s, c) ==>
               PrevSize(mem', d) == PrevSize(mem, d)
               && (d != p && d != p + nb ==> Head(mem', d) == Head(mem, d) && Bit(mem', d) == Bit(mem, d))
    ensures TagOK(mem', Shifted(s, p, nb), NOGAP, c)
  {
    hide Head, PrevSize, Bit;
    var t := Shifted(s, p, nb);
    NoChunk(t);
    assert TagOK(mem, s, p, c) && TagOK(mem, s, p, s.top);
    if c in s.home {
      var n := Next(s, c);
      assert n != s.top && c != p;
      if n == p + nb { InsideTop(s, p, nb, n); }
    }
  }

  lemma TwoHeads(mem: Memory, r: int, x: int, p: int, y: int, c: int)
    requires r % 8 == 0 && p % 8 == 0 && c % 8 == 0
    ensures var mem' := mem[r + 4 := x][p + 4 := y];
            PrevSize(mem', c) == PrevSize(mem, c)
            && (c != p && c != r ==> Head(mem', c) == Head(mem, c) && Bit(mem', c) == Bit(mem, c))
  {
  }

  /** Between the block and the end of `top` no chunk begins but `top`. */
  lemma InsideTop(s: Shape, p: int, nb: int, n: int)
    requires Tiled(s) && p in s.size && p != s.top && Next(s, p) == s.top && n in s.size && n == p + nb && nb > 0
    ensures n == s.top
  {
    assert ChunkOK(s, p) && ChunkOK(s, n) && Separate(s, p, n) && Separate(s, s.top, n);
  }

  /** The block `p` has been given `nb` bytes although the arena ends before:
      `top`, in 32-bit arithmetic, begins behind the break, and its size and the
      block's are all that has been written. */
  ghost predicate Overgrown(mem: Memory, brk: int, mem': Memory, top': int, brk': int, p: int, nb: int) {
    brk' == brk < p + nb && top' == (p + nb) % WORD_LIMIT && ChunkSize(mem', p) == nb
    && mem' == mem[top' + 4 := (brk - p - nb) % WORD_LIMIT + 1][p + 4 := nb + Bit(mem, p)]
  }

  /** Grows the block into `top`, which has to keep a minimal chunk. */
  method ShiftTop(h: Heap, p: int, newsize: int, nb: int)
    requires h.Ready(p) && Live(h.s, p) && Next(h.s, p) == h.s.top && newsize == h.s.size[p] + h.s.size[h.s.top]
    requires nb % 8 == 0 && MINSIZE <= nb < LONG_LIMIT && (nb + MINSIZE < LONG_LIMIT ==> nb <= newsize - MINSIZE)
    modifies h`mem, h`s, h`top
    ensures if nb + MINSIZE < LONG_LIMIT
            then h.Valid() && Fitted(old(h.mem), old(h.s), h.mem, h.s, p, nb) && h.s == Shifted(old(h.s), p, nb)
            else Overgrown(old(h.mem), h.brk, h.mem, h.top, h.brk, p, nb)
  {
    hide Tags, Links, Binned, Indexed, Keeps, Moved, LiveChange;
    ghost var mem0, s0 := h.mem, h.s;
    WholeArena(h, p);
    if nb + MINSIZE < LONG_LIMIT {
      ShiftedOK(s0, p, nb);
      ShiftedTags(mem0, s0, p, nb);
      ShiftedKeeps(mem0, s0, p, nb);
      NoWrap(p + nb);
      NoWrap(newsize - nb);
    } else {
      HeadSays(nb, Bit(mem0, p));
    }
    h.top := (p + nb) % WORD_LIMIT;
    var bit := Head(h.mem, p) % 2;
    h.mem := h.mem[h.top + 4 := (newsize - nb) % WORD_LIMIT + 1];
    h.mem := h.mem[p + 4 := nb + bit];
    h.s := if nb + MINSIZE < LONG_LIMIT then Shifted(s0, p, nb) else s0;
  }

  /** The last block and `top` end where the break is, and are no larger than the
      arena may be. */
  lemma WholeArena(h: Heap, p: int)
    requires h.Ready(p) && Live(h.s, p) && Next(h.s, p) == h.s.top
    ensures var newsize := h.s.size[p] + h.s.size[h.s.top];
            0 <= p && h.brk == p + newsize < WORD_LIMIT && newsize <= 0x7FFF_0000
  {
    assert ChunkOK(h.s, p) && ChunkOK(h.s, h.s.top);
  }

  lemma HeadSays(nb: int, bit: int)
    requires nb % 8 == 0 && 0 <= bit < 2
    ensures (nb + bit) / 4 * 4 == nb
  {
    var k := Eighths(nb);
    assert nb + bit == 4 * (2 * k) + bit;
  }

  lemma ShiftedKeeps(mem: Memory, s: Shape, p: int, nb: int)
    requires Tiled(s) && Binned(s) && Links(mem, s) && Live(s, p) && Next(s, p) == s.top && nb % 8 == 0
             && MINSIZE <= nb <= s.size[p] + s.size[s.top] - MINSIZE
    requires Tiled(Shifted(s, p, nb)) && Binned(Shifted(s, p, nb))
    requires LiveChange(s, Shifted(s, p, nb), NOGAP, NOGAP) && forall c :: Live(s, c) && c != p ==>
               Shifted(s, p, nb).size[c] == s.size[c]
    ensures var mem', t := mem[p + nb + 4 := s.size[p] + s.size[s.top] - nb + 1][p + 4 := nb + Bit(mem, p)],
            Shifted(s, p, nb);
            Links(mem', t) && Keeps(mem, s, mem', t, p) && Moved(mem, p, mem', p, nb)
  {
    hide Head, Bit;
    var t, x, y := Shifted(s, p, nb), s.size[p] + s.size[s.top] - nb + 1, nb + Bit(mem, p);
    var mem1, mem' := mem[p + nb + 4 := x], mem[p + nb + 4 := x][p + 4 := y];
    assert Links(mem, t);
    NoChunk(s);
    NoChunk(t);
    TagKeepsBase(mem, t, p + nb, x);
    TagKeepsBase(mem1, t, p, y);
    KeepsTag(mem, t, p + nb, x, NOGAP);
    KeepsTag(mem1, t, p, y, NOGAP);
    KeepsShape(mem, s, t, p);
    KeepsStep(mem, s, mem, t, mem1, t, p, NOGAP);
    KeepsStep(mem, s, mem1, t, mem', t, p, NOGAP);
    forall a | 8 <= a < nb + 4 && a % 4 == 0 ensures At(mem', p, a) == At(mem, p, a) { }
  }

  // ------------------------------------------------------------ elsewhere

  /** The block and the one in use after it become one. */
  lemma JoinLive(mem: Memory, s: Shape, p: int)
    requires Tiled(s) && Binned(s) && Links(mem, s) && Tags(mem, s, NOGAP) && Live(s, p) && Live(s, Next(s, p))
    ensures var t := Joined(s, p);
            Tiled(t) && Binned(t) && Links(mem, t) && Tags(mem, t, p) && Live(t, p)
            && LiveChange(s, t, Next(s, p), NOGAP) && t.top == s.top
            && t.size[p] == s.size[p] + s.size[Next(s, p)]
            && Next(t, t.top) == Next(s, s.top) && t.bins == s.bins && t.base == s.base
  {
    var n, t := Next(s, p), Joined(s, p);
    NoChunk(s);
    assert ChunkOK(s, p) && ChunkOK(s, n);
    JoinedOK(s, p);
    forall c | c in t.size ensures TagOK(mem, t, p, c) {
      assert TagOK(mem, s, NOGAP, c) && ChunkOK(s, c);
      if c in s.home && Next(s, c) == n { NextUnique(s, c, p); }
    }
  }

  lemma AdjacentGrowing(mem0: Memory, s0: Shape, mem: Memory, s: Shape, p: int, nb: int)
    requires Tiled(s0) && Tiled(s) && Live(s0, p) && Live(s, Next(s0, p))
             && Allocated(mem0, s0, mem, s, Next(s0, p), nb)
    requires p in s.size && Next(s, p) == Next(s0, p)
    requires LiveChange(s, Joined(s, p), Next(s, p), NOGAP) && Live(Joined(s, p), p)
             && Joined(s, p).size[p] == s.size[p] + s.size[Next(s, p)] && s.size[p] == s0.size[p]
    ensures Growing(mem0, s0, p, mem, Joined(s, p), p)
  {
    var t := Joined(s, p);
    NoChunk(s0);
    NoChunk(s);
    KeptRoom(mem0, s0, mem, s, p);
    RoomMoved(mem0, mem, s0, p, s0.size[p]);
    assert ChunkOK(s, Next(s, p));
    forall x ensures Live(t, x) <==> Live(s0, x) { assert Live(t, x) <==> Live(s, x) && x != Next(s, p); }
    forall q | Live(s0, q) && q != p
      ensures Live(t, q) && t.size[q] == s0.size[q] && SameRoom(mem0, mem, s0, q)
    {
      assert Live(s, q);
    }
  }

  /** What rEALLOc does: `q` is the block now, with room for the request, and
      begins with what `p` held, as far as there is room; every other block is
      as it was. */
  ghost predicate Reallocated(mem0: Memory, s0: Shape, mem: Memory, s: Shape, p: int, q: int, nb: int) {
    Live(s0, p) && Live(s, q) && nb <= s.size[q] < nb + MINSIZE && (q == p || !Live(s0, q))
    && LiveChange(s0, s, p, q) && Keeps(mem0, s0, mem, s, p)
    && Moved(mem0, p, mem, q, if s0.size[p] <= nb then s0.size[p] else nb)
  }

  lemma GrownFitted(mem0: Memory, s0: Shape, p: int, mem: Memory, s: Shape, q: int, mem': Memory, s': Shape, nb: int)
    requires Tiled(s0) && Growing(mem0, s0, p, mem, s, q) && Fitted(mem, s, mem', s', q, nb)
    ensures Reallocated(mem0, s0, mem', s', p, q, nb)
  {
    NoChunk(s0);
    KeepsStep(mem0, s0, mem, s, mem', s', p, q);
    forall x
      ensures Live(s', x) <==> (Live(s0, x) && x != p) || (x == q && q != NOGAP)
    {
      assert Live(s', x) <==> Live(s, x) && x != NOGAP;
    }
    var size := if s0.size[p] <= nb then s0.size[p] else nb;
    forall a | 8 <= a < size + 4 && a % 4 == 0 ensures At(mem', q, a) == At(mem0, p, a) {
      assert At(mem, q, a) == At(mem0, p, a) && At(mem', q, a) == At(mem, q, a);
    }
  }

  /** The block has been allocated anew, from where mALLOc takes it: next to the old
      one, of which it becomes part, or elsewhere, and the old one is freed. */
  ghost predicate AnewAs(s: Shape, t: Shape, p: int, q: int, nb: int, brk: int, u: Shape, c: int, more: int) {
    Chosen(s, c, nb) && Carved(s, u, c, nb, more) && p in s.size && p in u.size
    && if c == Next(s, p) then q == p && Next(u, p) in u.size && Cutdown(Joined(u, p), t, p, nb, brk)
       else q == c && FreedAny(u, t, p, brk)
  }

  ghost predicate Anew(s: Shape, t: Shape, p: int, q: int, nb: int, brk: int) {
    exists u, c, more :: AnewAs(s, t, p, q, nb, brk, u, c, more)
  }

  /** Allocates the new block, moves the contents and frees the old one. */
  method Elsewhere(h: Heap, p: int, oldsize: int, bytes: nat, nb: int) returns (r: int)
    requires h.Valid() && Live(h.s, p) && oldsize == h.s.size[p] < nb && bytes < LONG_LIMIT && nb == PadRequest(bytes)
    modifies h`mem, h`s, h`top, h`brk, h`binblocks
    ensures h.Valid()
    ensures r != 0 ==> Reallocated(old(h.mem), old(h.s), h.mem, h.s, p, r - 8, nb)
    ensures r == 0 ==> Released(old(h.mem), old(h.s), h.mem, h.s, NOGAP)
    ensures r == 0 <==> Refused(old(h.s), old(h.brk), h.hi, nb)
    ensures if r == 0 then h.brk == old(h.brk) && h.s.size == old(h.s).size
            else Settled(Extended(old(h.s), old(h.brk), nb), h.s.top, h.brk)
    ensures if r == 0 then h.s == Passed(old(h.s)) else Anew(old(h.s), h.s, p, r - 8, nb, h.brk)
  {
    hide Tags, Links, Binned, Indexed, Keeps, Moved, Released, Allocated, Growing, LiveChange, PadRequest, Refused,
         Carved,
         Chosen, Passed, FreedAny;
    ghost var mem0, s0 := h.mem, h.s;
    PadRange(bytes);
    BlockTells(h.mem, s0, p);
    var next := p + oldsize;
    var newmem := Malloc(h, bytes);
    if newmem == 0 { return 0; }
    ghost var mem1, s1, brk1 := h.mem, h.s, h.brk;
    var newp := newmem - 8;
    StillThere(mem0, s0, mem1, s1, p, newp, nb);
    assert ChunkOK(s0, p);
    if newp == next {
      BlockTells(mem1, s1, newp);
      var newsize := oldsize + ChunkSize(h.mem, newp);
      JoinLive(mem1, s1, p);
      AdjacentGrowing(mem0, s0, mem1, s1, p, nb);
      h.s := Joined(s1, p);
      ghost var s2 := h.s;
      SplitBlock(h, p, newsize, nb);
      GrownFitted(mem0, s0, p, mem1, s2, p, h.mem, h.s, nb);
      assert AnewAs(s0, h.s, p, p, nb, h.brk, s1, newp, brk1 - old(h.brk));
      r := p + 8;
    } else {
      CopyOver(h, newp, p, oldsize, nb, mem0, s0);
      assert AnewAs(s0, h.s, p, newp, nb, h.brk, s1, newp, brk1 - old(h.brk));
      r := newmem;
    }
  }

  lemma StillThere(mem0: Memory, s0: Shape, mem: Memory, s: Shape, p: int, newp: int, nb: int)
    requires Tiled(s0) && Live(s0, p) && Allocated(mem0, s0, mem, s, newp, nb)
    ensures Live(s, p) && s.size[p] == s0.size[p] && Live(s, newp) && newp != p && nb <= s.size[newp]
  {
    NoChunk(s0);
  }

  method CopyOver(h: Heap, newp: int, p: int, oldsize: int, ghost nb: int, ghost mem0: Memory, ghost s0: Shape)
    requires h.Valid() && Tiled(s0) && Live(s0, p) && Allocated(mem0, s0, h.mem, h.s, newp, nb)
             && oldsize == s0.size[p] < nb && newp != p
    modifies h`mem, h`s, h`top, h`brk, h`binblocks
    ensures h.Valid() && Reallocated(mem0, s0, h.mem, h.s, p, newp, nb)
    ensures Settled(old(h.brk), h.s.top, h.brk) && FreedAny(old(h.s), h.s, p, h.brk)
  {
    hide Tags, Links, Binned, Indexed, Keeps, Moved, Released, Allocated, LiveChange, FreedAny;
    ghost var mem1, s1 := h.mem, h.s;
    StillThere(mem0, s0, mem1, s1, p, newp, nb);
    Beside(s1, newp, p);
    Words4(oldsize);
    CopyWords(h, newp + 8, p + 8, oldsize - 4);
    CopiedInside(mem1, h.mem, s1, newp, p, oldsize);
    InsideKeeps(mem1, h.mem, s1, NOGAP, newp);
    ghost var mem2 := h.mem;
    Free(h, p + 8);
    CopiedOver(mem0, s0, mem1, s1, mem2, h.mem, h.s, newp, p, oldsize, nb);
  }

  lemma Beside(s: Shape, q: int, p: int)
    requires Tiled(s) && Live(s, q) && Live(s, p) && q != p
    ensures q + s.size[q] <= p || p + s.size[p] <= q
    ensures s.size[p] % 8 == 0 && s.size[p] >= MINSIZE && p + 8 != 0
    ensures s.size[p] < s.size[q] ==> s.size[p] + 8 <= s.size[q]
  {
    if s.size[p] < s.size[q] { SizesApart(s, q, p); }
    assert ChunkOK(s, p) && ChunkOK(s, q) && Separate(s, p, q) && Separate(s, q, p);
  }

  lemma SizesApart(s: Shape, q: int, p: int)
    requires Tiled(s) && p in s.size && q in s.size && s.size[p] < s.size[q]
    ensures s.size[p] + 8 <= s.size[q]
  {
    assert ChunkOK(s, p) && ChunkOK(s, q);
    var i := Eighths(s.size[p]);
    var j := Eighths(s.size[q]);
  }

  lemma CopiedOver(mem0: Memory, s0: Shape, mem1: Memory, s1: Shape, mem2: Memory, mem3: Memory, s3: Shape, q: int,
                   p: int, oldsize: int, nb: int)
    requires Tiled(s0) && Tiled(s1) && Live(s0, p) && Live(s1, p) && oldsize == s0.size[p] == s1.size[p] < nb && q != p
    requires Allocated(mem0, s0, mem1, s1, q, nb) && Keeps(mem1, s1, mem2, s1, q) && Released(mem2, s1, mem3, s3, p)
    requires forall a {:trigger At(mem2, q + 8, a)} :: 0 <= a < oldsize - 4 && a % 4 == 0 ==>
               At(mem2, q + 8, a) == At(mem1, p + 8, a)
    ensures Reallocated(mem0, s0, mem3, s3, p, q, nb)
  {
    NoChunk(s0);
    KeepsMore(mem0, s0, mem1, s1, p);
    KeepsStep(mem0, s0, mem1, s1, mem2, s1, p, q);
    KeepsStep(mem0, s0, mem2, s1, mem3, s3, p, p);
    KeptRoom(mem0, s0, mem1, s1, p);
    RoomMoved(mem0, mem1, s0, p, oldsize);
    assert Live(s3, q) && SameRoom(mem2, mem3, s1, q);
    RoomMoved(mem2, mem3, s1, q, oldsize);
    forall x
      ensures Live(s3, x) <==> (Live(s0, x) && x != p) || (x == q && q != NOGAP)
    {
      assert Live(s3, x) <==> Live(s1, x) && x != p;
    }
    forall a | 8 <= a < oldsize + 4 && a % 4 == 0 ensures At(mem3, q, a) == At(mem0, p, a) {
      Less8(a);
      assert At(mem2, q + 8, a - 8) == At(mem1, p + 8, a - 8);
      assert At(mem1, p, a) == At(mem0, p, a) && At(mem3, q, a) == At(mem2, q, a);
    }
  }

  // ---------------------------------------------------------------- rEALLOc

  /** The test whether `top` suffices, in signed 32-bit arithmetic */
  predicate TopSuffices(total: nat, nb: nat) {
    Signed(total) >= Signed((nb + MINSIZE) % WORD_LIMIT)
  }

  /** The test is right for all sizes of `top` exactly when the request leaves
      room for the remainder below two gigabytes; otherwise it always succeeds. */
  lemma TopTestRight(nb: nat)
    requires nb <= 0x7FFF_FFF8
    ensures (forall total: nat | total < LONG_LIMIT :: TopSuffices(total, nb) <==> total >= nb + MINSIZE) <==>
              nb + MINSIZE < LONG_LIMIT
    ensures nb + MINSIZE >= LONG_LIMIT ==> forall total: nat | total < LONG_LIMIT :: TopSuffices(total, nb)
  {
    if nb + MINSIZE >= LONG_LIMIT {
      assert TopSuffices(0, nb);
    }
  }

  /** A request of this many bytes cannot be met, yet the test for `top` says it
      can. */
  lemma TopTestFails()
    ensures var nb := PadRequest(0x7FFF_FFE5); nb == 0x7FFF_FFF0 && TopSuffices(MINSIZE, nb)
  {
  }

  /** The test for `top` is right about the request, or is not made because the
      block is not the last one. */
  ghost predicate TestHolds(s: Shape, p: int, nb: int)
    requires p in s.size
  {
    nb + MINSIZE < LONG_LIMIT || Next(s, p) != s.top
  }

  /** The block and what follows it suffice; `top` must keep a minimal chunk. */
  ghost predicate ForwardSuffices(s: Shape, p: int, nb: int)
    requires p in s.size
  {
    var n := Next(s, p);
    n in s.size
    && if n == s.top then s.size[p] + s.size[n] >= nb + MINSIZE else n in s.home && s.size[p] + s.size[n] >= nb
  }

  /** The block, the free chunk before it, and perhaps what follows it suffice. */
  ghost predicate BackSuffices(s: Shape, q: int, p: int, nb: int)
    requires p in s.size && q in s.size
  {
    var n := Next(s, p);
    s.size[q] + s.size[p] >= nb
    || (n in s.size
        && if n == s.top then s.size[q] + s.size[p] + s.size[n] >= nb + MINSIZE
           else n in s.home && s.size[q] + s.size[p] + s.size[n] >= nb)
  }

  /** The block can grow where it is, or with the chunk before it. */
  ghost predicate CanGrow(s: Shape, p: int, nb: int)
    requires p in s.size
  {
    ForwardSuffices(s, p, nb) || exists q :: Before(s, q, p) && BackSuffices(s, q, p, nb)
  }

  /** Block `p` has grown into what follows it. */
  ghost predicate ForwardGrown(s: Shape, t: Shape, p: int, nb: int, brk: int) {
    p in s.size && Next(s, p) in s.size
    && if Next(s, p) == s.top then t == Shifted(s, p, nb)
       else Next(s, p) in s.home && Binned(s) && Cutdown(Joined(Taken(s, Next(s, p)), p), t, p, nb, brk)
  }

  /** Block `p` has become part of the free chunk `q` before it, and of `top`. */
  ghost predicate BackTop(s: Shape, t: Shape, q: int, p: int, nb: int) {
    Before(s, q, p) && p in s.size && Binned(s)
    && var u := Joined(Taken(s, q), q);
       Next(u, q) in u.size && t == Shifted(u, q, nb)
  }

  /** Block `p` has taken in the free chunk after it and become part of the one
      before it. */
  ghost predicate BothGrown(s: Shape, t: Shape, q: int, p: int, nb: int, brk: int) {
    p in s.size && Next(s, p) in s.size && Next(s, p) in s.home && Binned(s)
    && var u := Joined(Taken(s, Next(s, p)), p);
       Binned(u) && Before(u, q, p) && p in u.size && Cutdown(Joined(Taken(u, q), q), t, q, nb, brk)
  }

  /** Block `p` has been shifted to the free chunk `q` before it; what follows the
      block is part of it, too, if that makes enough. */
  ghost predicate BackGrown(s: Shape, t: Shape, q: int, p: int, nb: int, brk: int) {
    Before(s, q, p) && p in s.size && Next(s, p) in s.size && Binned(s)
    && var n := Next(s, p);
       var total := s.size[q] + s.size[p] + s.size[n];
       if n == s.top && total >= nb + MINSIZE then BackTop(s, t, q, p, nb)
       else if n != s.top && n in s.home && total >= nb then BothGrown(s, t, q, p, nb, brk)
       else Cutdown(Joined(Taken(s, q), q), t, q, nb, brk)
  }

  /** Which block rEALLOc answers with, and what it does to the chunks: the block
      itself if it is large enough, or with what follows it; else the free chunk
      before it, if that is enough; else one that mALLOc finds. */
  ghost predicate Resizes(s: Shape, t: Shape, p: int, q: int, nb: int, brk: int) {
    p in s.size
    && if nb <= s.size[p] then q == p && Cutdown(s, t, p, nb, brk)
       else if ForwardSuffices(s, p, nb) then q == p && ForwardGrown(s, t, p, nb, brk)
       else if exists b :: Before(s, b, p) && BackSuffices(s, b, p, nb) then BackGrown(s, t, q, p, nb, brk)
       else Anew(s, t, p, q, nb, brk)
  }

  /** rEALLOc of block `p` has to answer 0. */
  ghost predicate CannotResize(s: Shape, brk: int, hi: int, p: int, bytes: nat)
    requires p in s.size
  {
    bytes >= LONG_LIMIT
    || (s.size[p] < PadRequest(bytes) && !CanGrow(s, p, PadRequest(bytes)) && Refused(s, brk, hi, PadRequest(bytes)))
  }

  /** Only a block that cannot grow where it is may make the arena grow. */
  ghost function BrkToResize(s: Shape, brk: int, p: int, nb: int): int
    requires p in s.size
  {
    if nb <= s.size[p] || CanGrow(s, p, nb) then brk else Extended(s, brk, nb)
  }

  lemma ArenaBound(h: Heap, p: int)
    requires h.Bounded() && Tiled(h.s) && Live(h.s, p)
    ensures Next(h.s, p) in h.s.size && p + 8 != 0
    ensures h.s.size[p] + h.s.size[Next(h.s, p)] < LONG_LIMIT && h.s.size[p] > 0 && h.s.size[Next(h.s, p)] > 0
  {
    assert ChunkOK(h.s, p);
    var n := Next(h.s, p);
    assert ChunkOK(h.s, n);
    if n != h.s.top { assert ChunkOK(h.s, Next(h.s, n)) && ChunkOK(h.s, h.s.top); }
      else { assert ChunkOK(h.s, h.s.top); }
  }

  /** Expanding forward; `done` tells whether it was enough. */
  method TryForward(h: Heap, p: int, oldsize: int, next: int, nextsize: int, nb: int) returns (done: bool)
    requires h.Valid() && Live(h.s, p) && oldsize == h.s.size[p] < nb && next == Next(h.s, p) && next in h.s.size
             && nextsize == h.s.size[next]
    requires nb % 8 == 0 && MINSIZE <= nb <= 0x7FFF_FFF8 && (next == h.s.top || next in h.s.home)
    modifies h`mem, h`s, h`top, h`brk, h`binblocks
    ensures done <==> ForwardSuffices(old(h.s), p, nb) || !TestHolds(old(h.s), p, nb)
    ensures TestHolds(old(h.s), p, nb) ==> h.Valid() && Settled(old(h.brk), h.s.top, h.brk)
    ensures TestHolds(old(h.s), p, nb) && done ==>
              Reallocated(old(h.mem), old(h.s), h.mem, h.s, p, p, nb) && ForwardGrown(old(h.s), h.s, p, nb, h.brk)
    ensures !TestHolds(old(h.s), p, nb) ==> Overgrown(old(h.mem), old(h.brk), h.mem, h.top, h.brk, p, nb)
    ensures !done ==>
              h.mem == old(h.mem) && h.s == old(h.s) && h.top == old(h.top) && h.brk == old(h.brk)
              && h.binblocks == old(h.binblocks)
  {
    hide Tags, Links, Binned, Indexed, Keeps, Moved, Growing, Fitted, Overgrown, Cutdown, Shifted;
    ghost var mem0, s0 := h.mem, h.s;
    ArenaBound(h, p);
    done := false;
    if next == h.top {
      if TopSuffices(nextsize + oldsize, nb) {
        OpenGap(mem0, s0, p);
        GrowingStarts(mem0, s0, p);
        ShiftTop(h, p, oldsize + nextsize, nb);
        if TestHolds(s0, p, nb) { GrownFitted(mem0, s0, p, mem0, s0, p, h.mem, h.s, nb); }
        done := true;
      }
    } else if nextsize + oldsize >= nb {
      OpenGap(mem0, s0, p);
      Forward(h, p, next);
      ghost var mem1, s1 := h.mem, h.s;
      SplitBlock(h, p, oldsize + nextsize, nb);
      GrownFitted(mem0, s0, p, mem1, s1, p, h.mem, h.s, nb);
      done := true;
    }
  }

  /** The free chunk before the block. */
  lemma PrevTells(h: Heap, p: int)
    requires h.Valid() && Live(h.s, p) && Bit(h.mem, p) == 0
    ensures var q := p - PrevSize(h.mem, p);
            q in h.s.size && q in h.s.home && Next(h.s, q) == p && h.s.size[q] == PrevSize(h.mem, p) && h.s.size[q] > 0
            && q > 0
            && ChunkSize(h.mem, q) == PrevSize(h.mem, p)
    ensures Next(h.s, p) in h.s.size && h.s.size[p] > 0 && h.s.size[Next(h.s, p)] > 0
    ensures PrevSize(h.mem, p) + h.s.size[p] + h.s.size[Next(h.s, p)] < LONG_LIMIT
  {
    ArenaBound(h, p);
    OpenGap(h.mem, h.s, p);
    BackTells(h.mem, h.s, p);
    var q := p - PrevSize(h.mem, p);
    HeadTells(h.mem, h.s, p, q);
    assert ChunkOK(h.s, q) && ChunkOK(h.s, p);
    var n := Next(h.s, p);
    assert ChunkOK(h.s, n);
    if n != h.s.top { assert ChunkOK(h.s, Next(h.s, n)) && ChunkOK(h.s, h.s.top); }
      else { assert ChunkOK(h.s, h.s.top); }
  }

  /** Shifting backwards, with the chunk after the block if that is free, too;
      the result is 0 when all of it is not enough. */
  method TryBackward(h: Heap, p: int, oldsize: int, next: int, nextsize: int, nextfree: bool, nb: int)
      returns (newp: int)
    requires h.Valid() && Live(h.s, p) && Bit(h.mem, p) == 0 && oldsize == h.s.size[p] < nb && next == Next(h.s, p)
             && next in h.s.size && nextsize == h.s.size[next]
    requires nb % 8 == 0 && MINSIZE <= nb <= 0x7FFF_FFF8 && TestHolds(h.s, p, nb)
             && (nextfree <==> next == h.s.top || next in h.s.home)
    modifies h`mem, h`s, h`top, h`brk, h`binblocks
    ensures h.Valid()
    ensures Before(old(h.s), p - PrevSize(old(h.mem), p), p)
    ensures newp != 0 <==> BackSuffices(old(h.s), p - PrevSize(old(h.mem), p), p, nb)
    ensures newp != 0 ==> Reallocated(old(h.mem), old(h.s), h.mem, h.s, p, newp, nb)
    ensures newp != 0 ==> BackGrown(old(h.s), h.s, newp, p, nb, h.brk)
    ensures newp >= 0 && (newp == 0 ==> h.mem == old(h.mem) && h.s == old(h.s))
    ensures newp == 0 ==> h.brk == old(h.brk)
    ensures Settled(old(h.brk), h.s.top, h.brk)
  {
    hide Tags, Links, Binned, Indexed, Keeps, Moved, Growing, Fitted, Cutdown, Shifted;
    ghost var mem0, s0 := h.mem, h.s;
    PrevTells(h, p);
    OpenGap(mem0, s0, p);
    GrowingStarts(mem0, s0, p);
    var prev := p - PrevSize(h.mem, p);
    var prevsize := ChunkSize(h.mem, prev);
    if nextfree {
      if next == h.top {
        if TopSuffices(nextsize + prevsize + oldsize, nb) {
          newp := BackIntoTop(h, p, oldsize, nextsize, prevsize, nb);
          return;
        }
      } else if nextsize + prevsize + oldsize >= nb {
        newp := BothWays(h, p, oldsize, next, nextsize, prevsize, nb);
        return;
      }
    }
    if prevsize + oldsize >= nb {
      var q, size := Backward(h, p, oldsize, mem0, s0);
      GrowingLive(mem0, s0, p, h.mem, h.s, q);
      ghost var mem1, s1 := h.mem, h.s;
      SplitBlock(h, q, size + oldsize, nb);
      GrownFitted(mem0, s0, p, mem1, s1, q, h.mem, h.s, nb);
      return q;
    }
    newp := 0;
  }

  method BackIntoTop(h: Heap, p: int, oldsize: int, nextsize: int, prevsize: int, nb: int) returns (newp: int)
    requires h.Valid() && Live(h.s, p) && Bit(h.mem, p) == 0 && oldsize == h.s.size[p] < nb && Next(h.s, p) == h.s.top
             && nextsize == h.s.size[h.s.top]
    requires prevsize == PrevSize(h.mem, p) && nb % 8 == 0 && MINSIZE <= nb <= nextsize + prevsize + oldsize - MINSIZE
    modifies h`mem, h`s, h`top
    ensures h.Valid() && newp == p - prevsize && Reallocated(old(h.mem), old(h.s), h.mem, h.s, p, newp, nb)
    ensures BackTop(old(h.s), h.s, newp, p, nb)
  {
    hide Tags, Links, Binned, Indexed, Keeps, Moved, Growing, Fitted, Shifted;
    ghost var mem0, s0 := h.mem, h.s;
    OpenGap(mem0, s0, p);
    GrowingStarts(mem0, s0, p);
    var size;
    newp, size := Backward(h, p, oldsize, mem0, s0);
    GrowingLive(mem0, s0, p, h.mem, h.s, newp);
    ghost var mem1, s1 := h.mem, h.s;
    WholeArena(h, newp);
    ShiftTop(h, newp, oldsize + prevsize + nextsize, nb);
    GrownFitted(mem0, s0, p, mem1, s1, newp, h.mem, h.s, nb);
  }

  lemma GrowingLive(mem0: Memory, s0: Shape, p: int, mem: Memory, s: Shape, g: int)
    requires Growing(mem0, s0, p, mem, s, g)
    ensures Live(s, g)
  {
  }

  method BothWays(h: Heap, p: int, oldsize: int, next: int, nextsize: int, prevsize: int, nb: int) returns (newp: int)
    requires h.Valid() && Live(h.s, p) && Bit(h.mem, p) == 0 && oldsize == h.s.size[p] < nb && next == Next(h.s, p)
    requires next in h.s.home && next in h.s.size && nextsize == h.s.size[next]
    requires prevsize == PrevSize(h.mem, p) && nb % 8 == 0 && MINSIZE <= nb <= nextsize + prevsize + oldsize
    modifies h`mem, h`s, h`top, h`brk, h`binblocks
    ensures h.Valid() && newp == p - prevsize && Reallocated(old(h.mem), old(h.s), h.mem, h.s, p, newp, nb)
    ensures Settled(old(h.brk), h.s.top, h.brk)
    ensures BothGrown(old(h.s), h.s, newp, p, nb, h.brk)
  {
    hide Tags, Links, Binned, Indexed, Keeps, Moved, Growing, Fitted, Cutdown;
    ghost var mem0, s0 := h.mem, h.s;
    OpenGap(mem0, s0, p);
    Forward(h, p, next);
    var size;
    newp, size := Backward(h, p, oldsize, mem0, s0);
    GrowingLive(mem0, s0, p, h.mem, h.s, newp);
    ghost var mem1, s1 := h.mem, h.s;
    SplitBlock(h, newp, oldsize + nextsize + prevsize, nb);
    GrownFitted(mem0, s0, p, mem1, s1, newp, h.mem, h.s, nb);
  }

  /** The block can be resized as the arithmetic of rEALLOc has it: not every
      request of a block next to `top` can. */
  ghost predicate Bearable(s: Shape, oldmem: int, bytes: nat)
    requires oldmem != 0 ==> oldmem - 8 in s.size
  {
    oldmem == 0 || bytes >= LONG_LIMIT || TestHolds(s, oldmem - 8, PadRequest(bytes))
  }

  /** rEALLOc.  A block next to `top` that is to have 0x7FFFFFE5 to 0x7FFFFFF4
      bytes is always said to have them. */
  method Realloc(h: Heap, oldmem: int, bytes: nat) returns (r: int)
    requires h.Valid() && bytes < WORD_LIMIT
    requires oldmem != 0 ==> Live(h.s, oldmem - 8)
    modifies h`mem, h`s, h`top, h`brk, h`binblocks
    ensures !Bearable(old(h.s), oldmem, bytes) ==>
              r == oldmem
              && Overgrown(old(h.mem), old(h.brk), h.mem, h.top, h.brk, oldmem - 8, PadRequest(bytes))
    ensures Bearable(old(h.s), oldmem, bytes) ==>
              h.Valid()
              && (r == 0 <==>
                  if oldmem == 0 then bytes >= LONG_LIMIT || Refused(old(h.s), old(h.brk), h.hi, PadRequest(bytes))
                  else CannotResize(old(h.s), old(h.brk), h.hi, oldmem - 8, bytes))
    ensures oldmem != 0 && r != 0 && Bearable(old(h.s), oldmem, bytes) ==>
              bytes < LONG_LIMIT && Reallocated(old(h.mem), old(h.s), h.mem, h.s, oldmem - 8, r - 8, PadRequest(bytes))
              && Settled(BrkToResize(old(h.s), old(h.brk), oldmem - 8, PadRequest(bytes)), h.s.top, h.brk)
              && Resizes(old(h.s), h.s, oldmem - 8, r - 8, PadRequest(bytes), h.brk)
    ensures oldmem == 0 && r != 0 ==>
              bytes < LONG_LIMIT && Allocated(old(h.mem), old(h.s), h.mem, h.s, r - 8, PadRequest(bytes))
              && h.brk == Extended(old(h.s), old(h.brk), PadRequest(bytes))
              && Chosen(old(h.s), r - 8, PadRequest(bytes))
              && Carved(old(h.s), h.s, r - 8, PadRequest(bytes), h.brk - old(h.brk))
    ensures r == 0 ==>
              Released(old(h.mem), old(h.s), h.mem, h.s, NOGAP) && h.brk == old(h.brk) && h.s.size == old(h.s).size
              && h.s == if bytes < LONG_LIMIT then Passed(old(h.s)) else old(h.s)
    ensures oldmem != 0 && bytes < LONG_LIMIT && PadRequest(bytes) <= old(h.s).size[oldmem - 8] ==> r == oldmem
  {
    hide Tags, Links, Binned, Indexed, Keeps, Moved, Released, Allocated, Growing, Fitted, PadRequest, Reallocated,
         Refused, CanGrow, Overgrown, Cutdown, Carved, Chosen, Passed, ForwardSuffices, ForwardGrown, BackGrown, Anew;
    ghost var mem0, s0 := h.mem, h.s;
    if Signed(bytes) < 0 {
      TopTells(mem0, s0);
      return 0;
    }
    if oldmem == 0 {
      r := Malloc(h, bytes);
      return;
    }
    PadRange(bytes);
    var oldp := oldmem - 8;
    BlockTells(mem0, s0, oldp);
    var oldsize := ChunkSize(h.mem, oldp);
    var nb := PadRequest(bytes);
    if oldsize < nb {
      r := Grow(h, oldp, oldsize, nb, bytes);
    } else {
      WholeBlock(h, oldp);
      OpenGap(mem0, s0, oldp);
      GrowingStarts(mem0, s0, oldp);
      SplitBlock(h, oldp, oldsize, nb);
      GrownFitted(mem0, s0, oldp, mem0, s0, oldp, h.mem, h.s, nb);
      r := oldmem;
    }
  }

  /** No block is so large that the test for `top` could be wrong about it. */
  lemma WholeBlock(h: Heap, p: int)
    requires h.Bounded() && Tiled(h.s) && Live(h.s, p)
    ensures h.s.size[p] + MINSIZE < LONG_LIMIT
  {
    ArenaBound(h, p);
    assert ChunkOK(h.s, p) && ChunkOK(h.s, h.s.top) && Separate(h.s, p, h.s.top);
  }

  /** rEALLOc of a block that is too small. */
  method Grow(h: Heap, p: int, oldsize: int, nb: int, bytes: nat) returns (r: int)
    requires h.Valid() && Live(h.s, p) && oldsize == h.s.size[p] < nb && bytes < LONG_LIMIT && nb == PadRequest(bytes)
    modifies h`mem, h`s, h`top, h`brk, h`binblocks
    ensures !TestHolds(old(h.s), p, nb) ==>
              r == p + 8 && Overgrown(old(h.mem), old(h.brk), h.mem, h.top, h.brk, p, nb)
    ensures TestHolds(old(h.s), p, nb) ==>
              h.Valid() && (r == 0 <==> !CanGrow(old(h.s), p, nb) && Refused(old(h.s), old(h.brk), h.hi, nb))
    ensures TestHolds(old(h.s), p, nb) && r != 0 ==>
              Reallocated(old(h.mem), old(h.s), h.mem, h.s, p, r - 8, nb)
              && Settled(BrkToResize(old(h.s), old(h.brk), p, nb), h.s.top, h.brk)
              && Resizes(old(h.s), h.s, p, r - 8, nb, h.brk)
    ensures r == 0 ==>
              Released(old(h.mem), old(h.s), h.mem, h.s, NOGAP) && h.brk == old(h.brk) && h.s.size == old(h.s).size
              && h.s == Passed(old(h.s))
  {
    hide Tags, Links, Binned, Indexed, Keeps, Moved, Released, Allocated, Growing, Fitted, PadRequest, Reallocated,
         Refused, BackSuffices, Overgrown, ForwardGrown, BackGrown, Anew, Passed;
    PadRange(bytes);
    ghost var s0 := h.s;
    ArenaBound(h, p);
    BlockTells(h.mem, s0, p);
    OneBefore(h.mem, s0, p, NOGAP);
    var next := p + oldsize;
    var nextsize := ChunkSize(h.mem, next);
    NextTells(h.mem, s0, next);
    var nextfree := next == h.top || Bit(h.mem, next + nextsize) == 0;
    if nextfree {
      var done := TryForward(h, p, oldsize, next, nextsize, nb);
      if done { return p + 8; }
    }
    if Bit(h.mem, p) == 0 {
      var newp := TryBackward(h, p, oldsize, next, nextsize, nextfree, nb);
      if newp != 0 {
        return newp + 8;
      }
    }
    r := Elsewhere(h, p, oldsize, bytes, nb);
  }
}
