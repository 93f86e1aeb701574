// The boundary tags: the size and in-use bit at the head of every chunk and
// the size at the foot of every free one.
//
// While a chunk is being freed, cut or joined its own tags are out of date.
// Such a chunk is the `gap` of the tags; `NOGAP` is no chunk.
module HeapTags {
  import opened HeapWords
  import opened HeapShape

  const NOGAP := -1

  ghost predicate AfterGap(s: Shape, g: int, c: int) {
    g in s.size && c == g + s.size[g]
  }

  ghost predicate FreeBefore(s: Shape, g: int, c: int, q: int) {
    q in s.home && q in s.size && q != g && q + s.size[q] == c
  }

  /** The head holds the size; a free chunk is known to be free from the chunk
      after it, which also knows its size; a clear bit is never a false alarm;
      no free chunk borders another or `top`. */
  ghost predicate TagOK(mem: Memory, s: Shape, g: int, c: int)
    requires c in s.size
  {
    (c != g ==> Head(mem, c) == s.size[c] + Bit(mem, c))
    && (c in s.home && c != g ==> Bit(mem, Next(s, c)) == 0 && PrevSize(mem, Next(s, c)) == s.size[c])
    && (Bit(mem, c) == 0 ==> AfterGap(s, g, c) || FreeBefore(s, g, c, c - PrevSize(mem, c)))
    && (c in s.home && c != g && Bit(mem, c) == 0 ==> AfterGap(s, g, c))
    && (c == s.top ==> Bit(mem, c) == 1)
  }

  ghost predicate Tags(mem: Memory, s: Shape, g: int) {
    forall c {:trigger TagOK(mem, s, g, c)} :: c in s.size ==> TagOK(mem, s, g, c)
  }

  /** The words a tag may be in are the same. */
  ghost predicate SameTags(mem: Memory, mem': Memory, s: Shape) {
    forall c {:trigger c in s.size} :: c in s.size ==>
        Head(mem', c) == Head(mem, c) && PrevSize(mem', c) == PrevSize(mem, c)
  }

  lemma NextUnique(s: Shape, c: int, d: int)
    requires Tiled(s) && c in s.size && d in s.size && Next(s, c) == Next(s, d)
    ensures c == d
  {
    assert ChunkOK(s, c) && ChunkOK(s, d) && Separate(s, c, d) && Separate(s, d, c);
  }

  lemma TagsSame(mem: Memory, mem': Memory, s: Shape, g: int)
    requires Tiled(s) && Tags(mem, s, g) && SameTags(mem, mem', s)
    ensures Tags(mem', s, g)
  {
    forall c | c in s.size ensures TagOK(mem', s, g, c) {
      assert TagOK(mem, s, g, c) && ChunkOK(s, c);
    }
  }

  lemma NoChunk(s: Shape)
    requires Tiled(s)
    ensures NOGAP !in s.size
  {
    assert NOGAP in s.size ==> ChunkOK(s, NOGAP);
  }

  /** The chunk after tells whether a chunk is free; a free one is between
      chunks in use. */
  lemma NextTells(mem: Memory, s: Shape, c: int)
    requires Tiled(s) && Tags(mem, s, NOGAP) && c in s.size
    ensures c != s.top ==> Next(s, c) in s.size && (Bit(mem, Next(s, c)) == 0 <==> c in s.home)
    ensures c in s.home ==> Next(s, c) !in s.home && Next(s, c) != s.top && Bit(mem, c) == 1
  {
    hide Head, PrevSize;
    NoChunk(s);
    assert TagOK(mem, s, NOGAP, c) && ChunkOK(s, c);
    if c != s.top {
      var n := Next(s, c);
      assert TagOK(mem, s, NOGAP, n);
      if Bit(mem, n) == 0 { NextUnique(s, c, n - PrevSize(mem, n)); }
    }
  }

  /** The head of a chunk other than the gap. */
  lemma HeadTells(mem: Memory, s: Shape, g: int, c: int)
    requires Tiled(s) && Tags(mem, s, g) && c in s.size && c != g
    ensures ChunkSize(mem, c) == s.size[c] && Head(mem, c) / 2 * 2 == s.size[c]
            && Head(mem, c) == s.size[c] + Bit(mem, c)
  {
    assert TagOK(mem, s, g, c) && ChunkOK(s, c);
  }

  /** A clear bit leads to the free chunk before. */
  lemma BackTells(mem: Memory, s: Shape, g: int)
    requires Tiled(s) && Tags(mem, s, g) && g in s.size && Bit(mem, g) == 0
    ensures var q := g - PrevSize(mem, g);
            q in s.home && q in s.size && q != g && Next(s, q) == g && Bit(mem, q) == 1 && s.size[q] == PrevSize(mem, g)
  {
    hide Head, PrevSize;
    assert ChunkOK(s, g) && TagOK(mem, s, g, g);
    var q := g - PrevSize(mem, g);
    assert TagOK(mem, s, g, q) && ChunkOK(s, q);
  }

  // ------------------------------------------------------------ transitions

  lemma OpenGap(mem: Memory, s: Shape, g: int)
    requires Tiled(s) && Tags(mem, s, NOGAP) && g in s.size
    ensures Tags(mem, s, g)
  {
    hide Head, PrevSize;
    NoChunk(s);
    forall c | c in s.size ensures TagOK(mem, s, g, c) {
      assert TagOK(mem, s, NOGAP, c) && ChunkOK(s, g);
    }
  }

  /** The chunk leaves or changes its bin. */
  lemma GapHome(mem: Memory, s: Shape, t: Shape, g: int)
    requires Tags(mem, s, g) && t.size == s.size && t.top == s.top
    requires forall c :: c != g ==> (c in s.home <==> c in t.home)
    ensures Tags(mem, t, g)
  {
    hide Head, PrevSize;
    forall c | c in t.size ensures TagOK(mem, t, g, c) { assert TagOK(mem, s, g, c); }
  }

  /** The in-use bit of the gap, which is kept by the chunk after it. */
  lemma MarkGap(mem: Memory, s: Shape, g: int, bit: int)
    requires Tiled(s) && Tags(mem, s, g) && g in s.size && g != s.top && bit in {0, 1}
    requires bit == 0 ==> Next(s, g) != s.top
    ensures Next(s, g) in s.size
    ensures var n := Next(s, g);
            Tags(mem[n + 4 := s.size[n] + bit], s, g)
            && Bit(mem[n + 4 := s.size[n] + bit], n) == bit
  {
    assert ChunkOK(s, g);
    var n := Next(s, g);
    assert ChunkOK(s, n);
    var mem' := mem[n + 4 := s.size[n] + bit];
    forall c | c in s.size ensures TagOK(mem', s, g, c) {
      assert TagOK(mem, s, g, c) && ChunkOK(s, c);
      if c in s.home && Next(s, c) == n { NextUnique(s, c, g); }
    }
  }

  /** The gap's own tags may be overwritten. */
  lemma WriteGap(mem: Memory, s: Shape, g: int, head: int, foot: int)
    requires Tiled(s) && Tags(mem, s, g) && g in s.size && head % 2 == Bit(mem, g)
    ensures Tags(mem[g + 4 := head], s, g) && Bit(mem[g + 4 := head], g) == Bit(mem, g)
    ensures Tags(mem[g + 4 := head][Next(s, g) := foot], s, g)
    ensures Bit(mem[g + 4 := head][Next(s, g) := foot], g) == Bit(mem, g)
    ensures g != s.top ==> Bit(mem[g + 4 := head][Next(s, g) := foot], Next(s, g)) == Bit(mem, Next(s, g))
  {
    assert ChunkOK(s, g);
    var n := Next(s, g);
    var mem1 := mem[g + 4 := head];
    forall c | c in s.size ensures TagOK(mem1, s, g, c) && TagOK(mem1[n := foot], s, g, c) {
      assert TagOK(mem, s, g, c) && ChunkOK(s, c);
      if c in s.home && Next(s, c) == n { NextUnique(s, c, g); }
      if c in s.home { assert ChunkOK(s, Next(s, c)); }
    }
  }

  /** The free chunk before the gap takes it in and is the gap from then on. */
  lemma JoinBack(mem: Memory, s: Shape, t: Shape, g: int, q: int)
    requires Tiled(s) && Tags(mem, s, g) && g in s.size && g !in s.home && g != s.top
    requires q in s.home && q in s.size && q != g && Next(s, q) == g
    requires t.size == s.size && t.top == s.top && forall c :: c != q ==> (c in s.home <==> c in t.home)
    ensures Tags(mem, Joined(t, q), q)
  {
    hide Head, PrevSize, Bit;
    assert ChunkOK(s, g) && ChunkOK(s, q);
    var u := Joined(t, q);
    forall c | c in u.size ensures TagOK(mem, u, q, c) {
      assert TagOK(mem, s, g, c) && ChunkOK(s, c);
      if c in s.home && Next(s, c) == g { NextUnique(s, c, q); }
    }
  }

  /** The gap takes in the free chunk after it. */
  lemma JoinNext(mem: Memory, s: Shape, t: Shape, g: int)
    requires Tiled(s) && Tags(mem, s, g) && g in s.size && g != s.top && Next(s, g) in s.home
    requires t.size == s.size && t.top == s.top && Next(s, g) !in t.home
    requires forall c :: c != g && c != Next(s, g) ==> (c in s.home <==> c in t.home)
    ensures Next(s, g) in s.size
    ensures var u := Joined(t, g);
            Tags(mem, u, g) && u.top == s.top
            && Next(u, g) in u.size && Next(u, g) != g && Bit(mem, Next(u, g)) == 0 && Next(u, g) !in u.home
            && Next(u, g) != u.top
  {
    hide Head, PrevSize, Bit;
    assert ChunkOK(s, g);
    var n, u := Next(s, g), Joined(t, g);
    assert ChunkOK(s, n) && TagOK(mem, s, g, n);
    var m := Next(s, n);
    assert ChunkOK(s, m) && TagOK(mem, s, g, m);
    forall c | c in u.size ensures TagOK(mem, u, g, c) {
      assert TagOK(mem, s, g, c) && ChunkOK(s, c);
    }
  }

  /** The gap ends as a free chunk. */
  lemma CloseFree(mem: Memory, s: Shape, t: Shape, g: int)
    requires Tiled(s) && Tags(mem, s, g) && g in s.size && g != s.top
    requires Head(mem, g) == s.size[g] + 1 && PrevSize(mem, Next(s, g)) == s.size[g]
    requires Bit(mem, Next(s, g)) == 0 && Next(s, g) !in s.home
    requires t.size == s.size && t.top == s.top && t.home.Keys == s.home.Keys + {g}
    ensures Tags(mem, t, NOGAP)
  {
    assert ChunkOK(s, g);
    TagBit(s.size[g], 1);
    hide Head, PrevSize, Bit;
    forall c | c in t.size ensures TagOK(mem, t, NOGAP, c) {
      assert TagOK(mem, s, g, c) && ChunkOK(s, c);
    }
  }

  /** The gap ends as a chunk in use, or as `top`. */
  lemma CloseLive(mem: Memory, s: Shape, g: int)
    requires Tiled(s) && Tags(mem, s, g) && g in s.size && g !in s.home
    requires Head(mem, g) == s.size[g] + Bit(mem, g) && (g == s.top || Bit(mem, Next(s, g)) == 1)
    ensures Tags(mem, s, NOGAP)
  {
    hide Head, PrevSize, Bit;
    assert ChunkOK(s, g);
    forall c | c in s.size ensures TagOK(mem, s, NOGAP, c) {
      assert TagOK(mem, s, g, c) && ChunkOK(s, c);
      if g == s.top && AfterGap(s, g, c) { assert false; }
    }
  }

  /** The gap is cut in two; the upper part is the gap from then on. */
  lemma CutGap(mem: Memory, s: Shape, g: int, nb: int)
    requires Tiled(s) && Tags(mem, s, g) && g in s.size && g !in s.home
    requires nb % 8 == 0 && MINSIZE <= nb <= s.size[g] - MINSIZE && g + nb !in s.size
    ensures var mem' := mem[g + 4 := nb + Bit(mem, g)][g + nb + 4 := s.size[g] - nb + 1];
            Tags(mem', Cut(s, g, nb), g + nb) && Bit(mem', g + nb) == 1
            && (g != s.top ==> Bit(mem', Next(s, g)) == Bit(mem, Next(s, g)))
  {
    hide TagOK, Cut, PrevSize;
    var r := g + nb;
    assert ChunkOK(s, g);
    TagBit(nb, Bit(mem, g));
    SumAligned(s.size[g], nb);
    TagBit(s.size[g] - nb, 1);
    WriteGap(mem, s, g, nb + Bit(mem, g), 0);
    var mem1 := mem[g + 4 := nb + Bit(mem, g)];
    FreshHead(mem1, s, g, r, s.size[g] - nb + 1);
    if g != s.top { assert ChunkOK(s, Next(s, g)); }
    CutShape(mem1[r + 4 := s.size[g] - nb + 1], s, g, nb);
  }

  /** Writing the head of a chunk to be does not touch the tags. */
  lemma FreshHead(mem: Memory, s: Shape, g: int, r: int, x: int)
    requires Tiled(s) && Tags(mem, s, g) && r !in s.size && r % 8 == 0 && x % 2 == 1
    ensures Tags(mem[r + 4 := x], s, g) && SameTags(mem, mem[r + 4 := x], s) && Bit(mem[r + 4 := x], r) == 1
  {
    var mem' := mem[r + 4 := x];
    forall c | c in s.size
      ensures Head(mem', c) == Head(mem, c) && PrevSize(mem', c) == PrevSize(mem, c)
    {
      assert ChunkOK(s, c);
    }
    TagsSame(mem, mem', s, g);
  }

  lemma CutShape(mem: Memory, s: Shape, g: int, nb: int)
    requires Tiled(s) && Tags(mem, s, g) && g in s.size && g !in s.home
    requires nb % 8 == 0 && g + nb !in s.size && Head(mem, g) == nb + Bit(mem, g) && Bit(mem, g + nb) == 1
    ensures Tags(mem, Cut(s, g, nb), g + nb)
  {
    hide Head, PrevSize, Bit;
    assert ChunkOK(s, g);
    var r, t := g + nb, Cut(s, g, nb);
    forall c | c in t.size ensures TagOK(mem, t, r, c) {
      if c in s.size { assert TagOK(mem, s, g, c) && ChunkOK(s, c); }
    }
  }

  /** The gap and `top` after it become the new `top`. */
  lemma JoinTop(mem: Memory, s: Shape, g: int)
    requires Tiled(s) && Tags(mem, s, g) && g in s.size && g !in s.home && g != s.top && Next(s, g) == s.top
             && Bit(mem, g) == 1
    ensures Tags(mem[g + 4 := s.size[g] + s.size[s.top] + 1], Joined(s, g), NOGAP)
  {
    hide TagOK, Joined;
    assert ChunkOK(s, g) && ChunkOK(s, s.top);
    var mem' := mem[g + 4 := s.size[g] + s.size[s.top] + 1];
    SumAligned(s.size[g], s.size[s.top]);
    TagBit(s.size[g] + s.size[s.top], 1);
    WriteGap(mem, s, g, s.size[g] + s.size[s.top] + 1, 0);
    JoinTopShape(mem', s, g);
  }

  lemma JoinTopShape(mem: Memory, s: Shape, g: int)
    requires Tiled(s) && Tags(mem, s, g) && g in s.size && g !in s.home && g != s.top && Next(s, g) == s.top
             && Bit(mem, g) == 1
    requires Head(mem, g) == s.size[g] + s.size[s.top] + 1
    ensures Tags(mem, Joined(s, g), NOGAP)
  {
    hide Head, PrevSize, Bit;
    assert ChunkOK(s, g);
    NoChunk(s);
    var t := Joined(s, g);
    assert TagOK(mem, s, g, s.top);
    forall c | c in t.size ensures TagOK(mem, t, NOGAP, c) {
      assert TagOK(mem, s, g, c) && ChunkOK(s, c);
      if c in s.home { NotBefore(s, c, g); }
    }
  }

  lemma NotBefore(s: Shape, c: int, g: int)
    requires Tiled(s) && c in s.size && g in s.size && c != g
    ensures Next(s, c) != Next(s, g)
  {
    if Next(s, c) == Next(s, g) { NextUnique(s, c, g); }
  }

  lemma ResizeTop(mem: Memory, s: Shape, size: int)
    requires Tiled(s) && Tags(mem, s, NOGAP) && size % 8 == 0
    ensures Tags(mem[s.top + 4 := size + 1], Resized(s, size), NOGAP)
  {
    hide TagOK, Resized;
    assert ChunkOK(s, s.top);
    OpenGap(mem, s, s.top);
    TopBit(mem, s);
    TagBit(size, 1);
    WriteGap(mem, s, s.top, size + 1, 0);
    ResizeShape(mem[s.top + 4 := size + 1], s, size);
  }

  lemma TopBit(mem: Memory, s: Shape)
    requires Tiled(s) && Tags(mem, s, NOGAP)
    ensures Bit(mem, s.top) == 1
  {
    assert TagOK(mem, s, NOGAP, s.top);
  }

  lemma ResizeShape(mem: Memory, s: Shape, size: int)
    requires Tiled(s) && Tags(mem, s, s.top) && size % 8 == 0 && Head(mem, s.top) == size + 1
    ensures Tags(mem, Resized(s, size), NOGAP)
  {
    hide Head, PrevSize, Bit;
    NoChunk(s);
    assert ChunkOK(s, s.top);
    var t := Resized(s, size);
    forall c | c in t.size ensures TagOK(mem, t, NOGAP, c) {
      assert TagOK(mem, s, s.top, c) && ChunkOK(s, c);
    }
  }
}
